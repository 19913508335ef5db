/**
 * Whole lines from text to the values `interpret` collects: the parse fixes
 * the tree, the tree walker computes its value.
 */
module RunExamples {
  import opened Tokens
  import opened Outcomes
  import opened Ast
  import opened Grammar
  import opened Semantics
  import opened ParseExamples

  /** The one value a line holding a single expression statement collects. */
  lemma SingleValue(e: Node, st: State, fuel: nat, v: Value)
    requires IsExpr(e) && Eval(e, st.scope) == EvalOut(Ok(v), []) && v != NoneValue
    ensures AllWellFormed([e])
    ensures RunStatements([e], st, fuel, []).res == Ok([v])
  {
    var s := Exec(e, st, fuel);
    assert s.res == Ok(v);
    assert [e][0] == e && [e][1..] == [];
    var none: seq<Value> := [];
    assert none + [v] == [v];
    assert RunStatements([e], st, fuel, []) == RunStatements([], s.st, fuel, [v]);
  }

  /** The tree of `3+4*2` evaluates to 11 in any scope. */
  lemma ProductFirst(ss: seq<Node>, st: State, fuel: nat)
    requires ss == [BinOp(Num(3), PLUS, BinOp(Num(4), MUL, Num(2)))]
    ensures AllWellFormed(ss) && RunStatements(ss, st, fuel, []).res == Ok([Int(11)])
  {
    var e := ss[0];
    assert Eval(e.right, st.scope) == EvalOut(Ok(Int(8)), []);
    assert Eval(e, st.scope) == EvalOut(Ok(Int(11)), []);
    SingleValue(e, st, fuel, Int(11));
  }

  /** The tree of `(3+4)*2` evaluates to 14 in any scope. */
  lemma SumFirst(ss: seq<Node>, st: State, fuel: nat)
    requires ss == [BinOp(BinOp(Num(3), PLUS, Num(4)), MUL, Num(2))]
    ensures AllWellFormed(ss) && RunStatements(ss, st, fuel, []).res == Ok([Int(14)])
  {
    var e := ss[0];
    assert Eval(e.left, st.scope) == EvalOut(Ok(Int(7)), []);
    assert Eval(e, st.scope) == EvalOut(Ok(Int(14)), []);
    SingleValue(e, st, fuel, Int(14));
  }

  /** `3+4*2` gives 11: the product is taken first. */
  lemma PrecedenceRun(t: string, st: State, fuel: nat)
    requires t == "3+4*2"
    ensures Parse(t).Ok? && AllWellFormed(Parse(t).value)
    ensures RunStatements(Parse(t).value, st, fuel, []).res == Ok([Int(11)])
  {
    Precedence(t);
    ProductFirst(Parse(t).value, st, fuel);
  }

  /** `(3+4)*2` gives 14: the parentheses are taken first. */
  lemma GroupedRun(t: string, st: State, fuel: nat)
    requires t == "(3+4)*2"
    ensures Parse(t).Ok? && AllWellFormed(Parse(t).value)
    ensures RunStatements(Parse(t).value, st, fuel, []).res == Ok([Int(14)])
  {
    Grouped(t);
    SumFirst(Parse(t).value, st, fuel);
  }
}
