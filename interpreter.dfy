/**
 * The tree-walking interpreter as an object: GLOBAL_SCOPE is a field the
 * visitors update in place, and the messages the interpreter prints are
 * recorded in a second field. Every visitor is proved to compute the function
 * of `Semantics` that specifies it, with the interpreter's fields as the state.
 */
module Interpreting {
  import opened Tokens
  import opened Outcomes
  import opened Lexing
  import opened Ast
  import opened Grammar
  import opened Parsing
  import opened Semantics

  class Interpreter {
    /** GLOBAL_SCOPE: the value of every variable assigned so far. */
    var scope: map<string, Value>
    /** The warnings the interpreter has printed so far, in order. */
    var diagnostics: seq<Diagnostic>

    function Current(): State
      reads this
    {
      State(scope, diagnostics)
    }

    /** A new interpreter starts with no variables. */
    constructor ()
      ensures scope == map[] && diagnostics == []
    {
      scope := map[];
      diagnostics := [];
    }

    /** `visit` on an expression: dispatch on the kind of node. */
    method VisitExpr(e: Node) returns (r: Result<Value>)
      requires IsExpr(e)
      modifies this
      ensures Step(r, Current()) == EvalIn(e, old(Current()))
      decreases e, 3
    {
      match e
      case Num(v) => r := Ok(Int(v));
      case Var(name) => r := VisitVar(name);
      case UnaryOp(_) => r := VisitUnaryOp(e);
      case BinOp(_, _, _) => r := VisitBinOp(e);
    }

    /** `visit_Var`: an undefined variable prints a warning and reads as None. */
    method VisitVar(name: string) returns (r: Result<Value>)
      modifies this
      ensures Step(r, Current()) == EvalIn(Var(name), old(Current()))
    {
      if name in scope {
        r := Ok(scope[name]);
      } else {
        diagnostics := diagnostics + [Undefined(name)];
        r := Ok(NoneValue);
      }
    }

    /** `visit_UnaryOp`: negation; negating None raises. */
    method VisitUnaryOp(e: Node) returns (r: Result<Value>)
      requires e.UnaryOp? && IsExpr(e)
      modifies this
      ensures Step(r, Current()) == EvalIn(e, old(Current()))
      decreases e, 2
    {
      var v := VisitExpr(e.operand);
      if v.Err? {
        return v;
      }
      if v.value == NoneValue {
        return Err(NegateNone);
      }
      r := Ok(Int(-AsInt(v.value)));
    }

    /** The cases of `Eval` on a BinOp, in the order `visit_BinOp` meets them. */
    static lemma BinOpCases(e: Node, sc: map<string, Value>)
      requires e.BinOp? && IsExpr(e)
      ensures var lo, ro := Eval(e.left, sc), Eval(e.right, sc);
              && (lo.res.Err? ==> Eval(e, sc) == lo)
              && (lo.res.Ok? && ro.res.Err? ==> Eval(e, sc) == EvalOut(ro.res, lo.diags + ro.diags))
              && (lo.res.Ok? && ro.res.Ok? && (lo.res.value == NoneValue || ro.res.value == NoneValue) ==>
                    Eval(e, sc) == EvalOut(Ok(NoneValue), lo.diags + ro.diags))
              && (lo.res.Ok? && ro.res.Ok? && lo.res.value != NoneValue && ro.res.value != NoneValue ==>
                    lo.diags == [] && ro.diags == [] && Eval(e, sc) == Apply(e.op, lo.res.value, ro.res.value))
    {
    }

    /** `visit_BinOp`: both operands first, then None if either is None, else the operator. */
    method VisitBinOp(e: Node) returns (r: Result<Value>)
      requires e.BinOp? && IsExpr(e)
      modifies this
      ensures Step(r, Current()) == EvalIn(e, old(Current()))
      decreases e, 2
    {
      ghost var lo, ro := Eval(e.left, scope), Eval(e.right, scope);
      BinOpCases(e, scope);
      ghost var d0 := diagnostics;
      var left := VisitExpr(e.left);
      assert left == lo.res && diagnostics == d0 + lo.diags;
      if left.Err? {
        return left;
      }
      var right := VisitExpr(e.right);
      assert right == ro.res && diagnostics == d0 + (lo.diags + ro.diags);
      if right.Err? {
        return right;
      }
      if left.value == NoneValue || right.value == NoneValue {
        return Ok(NoneValue);
      }
      r := Operate(e, left.value, right.value);
    }

    /**
     * The operator part of `visit_BinOp`, given the values of both operands.
     * A comparison visits both operands a second time; that is harmless, since
     * an operand with a value printed nothing and changes nothing.
     */
    method Operate(e: Node, a: Value, b: Value) returns (r: Result<Value>)
      requires e.BinOp? && IsExpr(e) && a != NoneValue && b != NoneValue
      requires Eval(e.left, scope).res == Ok(a) && Eval(e.right, scope).res == Ok(b)
      modifies this
      ensures var o := Apply(e.op, a, b);
              r == o.res && scope == old(scope) && diagnostics == old(diagnostics) + o.diags
      decreases e, 1
    {
      var x, y := AsInt(a), AsInt(b);
      var op := e.op;
      if op == PLUS {
        r := CheckOverflow(x + y);
      } else if op == MINUS {
        r := CheckOverflow(x - y);
      } else if op == MUL {
        r := CheckOverflow(x * y);
      } else if op == GREATER || op == LESS || op == EQUALS {
        r := Compare(e, a, b);
      } else if y == 0 {
        diagnostics := diagnostics + [DivisionByZero];
        r := Ok(NoneValue);
      } else {
        r := CheckOverflow(FloorDiv(x, y));
      }
    }

    /**
     * The comparison branches of `visit_BinOp`, which visit both operands a
     * second time and compare the new values.
     */
    method Compare(e: Node, a: Value, b: Value) returns (r: Result<Value>)
      requires e.BinOp? && IsExpr(e) && IsComparison(e.op) && a != NoneValue && b != NoneValue
      requires Eval(e.left, scope).res == Ok(a) && Eval(e.right, scope).res == Ok(b)
      modifies this
      ensures r == Apply(e.op, a, b).res && scope == old(scope) && diagnostics == old(diagnostics)
      decreases e, 0
    {
      var l := VisitExpr(e.left);
      var rr := VisitExpr(e.right);
      var m, n := AsInt(l.value), AsInt(rr.value);
      var op := e.op;
      r := Ok(Bool(if op == GREATER then m > n else if op == LESS then m < n else m == n));
    }

    /** `visit_Assign`: refuse a 51st variable before evaluating, then store the value (None included). */
    method VisitAssign(n: Node) returns (r: Result<Value>)
      requires n.Assign? && WellFormed(n)
      modifies this
      ensures Step(r, Current()) == ExecAssign(n.name, n.rhs, old(Current()))
    {
      if n.name !in scope && |scope| >= MAX_VARIABLE_COUNT {
        return Err(TooManyVariables);
      }
      var value := VisitExpr(n.rhs);
      if value.Err? {
        return value;
      }
      scope := scope[n.name := value.value];
      r := Ok(NoneValue);
    }

    /** `visit` on a statement: dispatch on the kind of node. */
    method Visit(n: Node, fuel: nat) returns (r: Result<Value>)
      requires WellFormed(n)
      modifies this
      ensures Step(r, Current()) == Exec(n, old(Current()), fuel)
      decreases fuel, n, 1
    {
      match n
      case Assign(_, _) => r := VisitAssign(n);
      case IfThen(_, _) => r := VisitIfThen(n, fuel);
      case IfThenElse(_, _, _) => r := VisitIfThenElse(n, fuel);
      case While(_, _) =>
        r := VisitWhile(n, fuel);
        if r.Ok? {
          r := Ok(NoneValue);
        }
      case _ => r := VisitExpr(n);
    }

    /** `visit_IfThen`: the statement when the condition is truthy, else None. */
    method VisitIfThen(n: Node, fuel: nat) returns (r: Result<Value>)
      requires n.IfThen? && WellFormed(n)
      modifies this
      ensures Step(r, Current()) == Exec(n, old(Current()), fuel)
      decreases fuel, n, 0
    {
      var c := VisitExpr(n.condition);
      if c.Err? {
        return c;
      }
      if Truthy(c.value) {
        r := Visit(n.trueStmt, fuel);
      } else {
        r := Ok(NoneValue);
      }
    }

    /** `visit_IfThenElse`: one of the two statements, by the truthiness of the condition. */
    method VisitIfThenElse(n: Node, fuel: nat) returns (r: Result<Value>)
      requires n.IfThenElse? && WellFormed(n)
      modifies this
      ensures Step(r, Current()) == Exec(n, old(Current()), fuel)
      decreases fuel, n, 0
    {
      var c := VisitExpr(n.condition);
      if c.Err? {
        return c;
      }
      if Truthy(c.value) {
        r := Visit(n.trueStmt, fuel);
      } else {
        r := Visit(n.falseStmt, fuel);
      }
    }

    /** `visit_While`: run the body while the condition is truthy, for at most `fuel` iterations. */
    method VisitWhile(n: Node, fuel: nat) returns (r: Result<Value>)
      requires n.While? && WellFormed(n)
      modifies this
      ensures Step(r, Current()) == Loop(n.condition, n.body, old(Current()), fuel)
      decreases fuel, n, 0
    {
      var f: nat := fuel;
      while true
        invariant f <= fuel
        invariant Loop(n.condition, n.body, Current(), f) == Loop(n.condition, n.body, old(Current()), fuel)
        decreases f
      {
        var c := VisitExpr(n.condition);
        if c.Err? {
          return c;
        }
        if !Truthy(c.value) {
          return Ok(NoneValue);
        }
        if f == 0 {
          return Err(OutOfFuel);
        }
        var b := VisitList(n.body, f - 1);
        if b.Err? {
          return b;
        }
        f := f - 1;
      }
    }

    /** `visit_list`: visit the statements in order and return the last value. */
    method VisitList(ss: seq<Node>, fuel: nat) returns (r: Result<Value>)
      requires AllWellFormed(ss)
      modifies this
      ensures Step(r, Current()) == ExecList(ss, NoneValue, old(Current()), fuel)
      decreases fuel, ss, 2
    {
      var result := NoneValue;
      for i := 0 to |ss|
        invariant ExecList(ss[i..], result, Current(), fuel) == ExecList(ss, NoneValue, old(Current()), fuel)
      {
        assert ss[i..][0] == ss[i] && ss[i..][1..] == ss[i + 1..];
        var v := Visit(ss[i], fuel);
        if v.Err? {
          return v;
        }
        result := v.value;
      }
      r := Ok(result);
    }

    /**
     * `interpret`: parse the line, visit every statement and collect the
     * values that are not None. A parse failure leaves the interpreter as it
     * was; a failure while running keeps the effects of the statements before it.
     */
    method Interpret(parser: Parser, fuel: nat) returns (r: Result<seq<Value>>)
      requires parser.Valid()
      modifies this, parser, parser.lexer
      ensures var p := ParseFrom(parser.lexer.text, old(parser.tokStart));
              (p.Err? ==> r == Err(p.error) && Current() == old(Current())) &&
              (p.Ok? ==> Run(r, Current()) == RunStatements(p.value, old(Current()), fuel, []))
    {
      var statements := parser.Parse();
      if statements.Err? {
        return Err(statements.error);
      }
      r := VisitStatements(statements.value, fuel);
    }

    /** The loop of `interpret`: visit each statement in order and collect the values that are not None. */
    method VisitStatements(ss: seq<Node>, fuel: nat) returns (r: Result<seq<Value>>)
      requires AllWellFormed(ss)
      modifies this
      ensures Run(r, Current()) == RunStatements(ss, old(Current()), fuel, [])
    {
      var results := [];
      for i := 0 to |ss|
        invariant forall j | 0 <= j < |results| :: results[j] != NoneValue
        invariant RunStatements(ss[i..], Current(), fuel, results) == RunStatements(ss, old(Current()), fuel, [])
      {
        assert ss[i..][0] == ss[i] && ss[i..][1..] == ss[i + 1..];
        var v := Visit(ss[i], fuel);
        if v.Err? {
          return Err(v.error);
        }
        if v.value != NoneValue {
          results := results + [v.value];
        }
      }
      r := Ok(results);
    }

    /**
     * One line of input: build the lexer and the parser for `text` (an empty
     * line fails when the lexer reads its first character) and interpret it.
     */
    method InterpretLine(text: string, fuel: nat) returns (r: Result<seq<Value>>)
      modifies this
      ensures var p := Grammar.Parse(text);
              (p.Err? ==> r == Err(p.error) && Current() == old(Current())) &&
              (p.Ok? ==> Run(r, Current()) == RunStatements(p.value, old(Current()), fuel, []))
    {
      if |text| == 0 {
        return Err(EmptyText);
      }
      var lexer := new Lexer(text);
      var created := Parser.Create(lexer);
      if created.Err? {
        return Err(created.error);
      }
      r := Interpret(created.value, fuel);
    }
  }
}
