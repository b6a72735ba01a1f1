/**
 * What the AND/OR flattening of parseLogicalCombination (dsl/expressions.go) means: the flat
 * node built from `left` and `right` has the value, or the first error, of the nested node
 * And(left, right) (Or(left, right)), since a minimum (maximum) of minima (maxima) is the
 * minimum (maximum) of all, and the operands are met in the same order.
 */
module DslFlattening {
  import opened Wrappers
  import opened FuzzyErrors
  import opened MembershipFunctions
  import opened Contexts
  import opened Expressions
  import opened DslParser
  import opened DslParserFacts

  /** The values of a list of expressions in order, or the first of their errors. */
  function EvalSeq(es: seq<Expr>, env: Env): (r: Outcome<seq<real>, FuzzyError>)
    ensures r.Ok? ==> |r.value| == |es|
  {
    if es == [] then Ok([])
    else
      var v :- Eval(es[0], env);
      var vs :- EvalSeq(es[1..], env);
      Ok([v] + vs)
  }

  /** Two evaluations in turn: the first one's error, else the second one's, else both values. */
  function Join(x: Outcome<seq<real>, FuzzyError>, y: Outcome<seq<real>, FuzzyError>): Outcome<seq<real>, FuzzyError> {
    if x.Fail? then x else if y.Fail? then y else Ok(x.value + y.value)
  }

  /** The operands of an And or Or from the i-th on evaluate as the list of them. */
  lemma {:induction false} EvalFromSeq(e: Expr, i: nat, env: Env)
    requires (e.And? || e.Or?) && i <= 1 + |e.rest|
    ensures EvalFrom(e, i, env) == EvalSeq(e.Operands()[i..], env)
    decreases 1 + |e.rest| - i
  {
    if i < 1 + |e.rest| {
      EvalFromSeq(e, i + 1, env);
      var es := e.Operands()[i..];
      assert es[0] == Operand(e, i);
      assert es[1..] == e.Operands()[i + 1..];
    }
  }

  /** A list evaluates as its two parts in turn. */
  lemma {:induction false} EvalSeqAppend(a: seq<Expr>, b: seq<Expr>, env: Env)
    ensures EvalSeq(a + b, env) == Join(EvalSeq(a, env), EvalSeq(b, env))
    decreases |a|
  {
    if a == [] {
      assert a + b == b;
      if EvalSeq(b, env).Ok? {
        assert [] + EvalSeq(b, env).value == EvalSeq(b, env).value;
      }
    } else {
      assert (a + b)[0] == a[0];
      assert (a + b)[1..] == a[1..] + b;
      EvalSeqAppend(a[1..], b, env);
      var x, y := EvalSeq(a[1..], env), EvalSeq(b, env);
      if Eval(a[0], env).Ok? && x.Ok? && y.Ok? {
        assert [Eval(a[0], env).value] + (x.value + y.value) == ([Eval(a[0], env).value] + x.value) + y.value;
      }
    }
  }

  /** The minimum of a joined list is the smaller of the parts' minima. */
  lemma {:induction false} MinAllAppend(a: seq<real>, b: seq<real>)
    requires |a| > 0 && |b| > 0
    ensures MinAll(a + b) == RMin(MinAll(a), MinAll(b))
    decreases |b|
  {
    var s := a + b;
    assert s[..|s| - 1] == a + b[..|b| - 1];
    if |b| > 1 {
      MinAllAppend(a, b[..|b| - 1]);
    }
  }

  /** The maximum of a joined list is the larger of the parts' maxima. */
  lemma {:induction false} MaxAllAppend(a: seq<real>, b: seq<real>)
    requires |a| > 0 && |b| > 0
    ensures MaxAll(a + b) == RMax(MaxAll(a), MaxAll(b))
    decreases |b|
  {
    var s := a + b;
    assert s[..|s| - 1] == a + b[..|b| - 1];
    if |b| > 1 {
      MaxAllAppend(a, b[..|b| - 1]);
    }
  }

  /** The smallest of a list of values, or the error met while computing it. */
  function Smallest(r: Outcome<seq<real>, FuzzyError>): Outcome<real, FuzzyError>
    requires r.Ok? ==> |r.value| > 0
  {
    if r.Fail? then Fail(r.error) else Ok(MinAll(r.value))
  }

  /** The largest of a list of values, or the error met while computing it. */
  function Largest(r: Outcome<seq<real>, FuzzyError>): Outcome<real, FuzzyError>
    requires r.Ok? ==> |r.value| > 0
  {
    if r.Fail? then Fail(r.error) else Ok(MaxAll(r.value))
  }

  /** The smaller of two values computed in turn: the first one's error, else the second one's. */
  function PairMin(a: Outcome<real, FuzzyError>, b: Outcome<real, FuzzyError>): Outcome<real, FuzzyError> {
    if a.Fail? then a else if b.Fail? then b else Ok(RMin(a.value, b.value))
  }

  /** The larger of two values computed in turn: the first one's error, else the second one's. */
  function PairMax(a: Outcome<real, FuzzyError>, b: Outcome<real, FuzzyError>): Outcome<real, FuzzyError> {
    if a.Fail? then a else if b.Fail? then b else Ok(RMax(a.value, b.value))
  }

  /** The minimum over two lists in turn is the smaller of their minima. */
  lemma JoinMin(x: Outcome<seq<real>, FuzzyError>, y: Outcome<seq<real>, FuzzyError>)
    requires x.Ok? ==> |x.value| > 0
    requires y.Ok? ==> |y.value| > 0
    ensures Smallest(Join(x, y)) == PairMin(Smallest(x), Smallest(y))
  {
    if x.Ok? && y.Ok? {
      MinAllAppend(x.value, y.value);
    }
  }

  /** The maximum over two lists in turn is the larger of their maxima. */
  lemma JoinMax(x: Outcome<seq<real>, FuzzyError>, y: Outcome<seq<real>, FuzzyError>)
    requires x.Ok? ==> |x.value| > 0
    requires y.Ok? ==> |y.value| > 0
    ensures Largest(Join(x, y)) == PairMax(Largest(x), Largest(y))
  {
    if x.Ok? && y.Ok? {
      MaxAllAppend(x.value, y.value);
    }
  }

  /** An AND is the minimum of its operands' list and an OR the maximum. */
  lemma NodeMeaning(e: Expr, env: Env)
    requires e.And? || e.Or?
    ensures e.And? ==> Eval(e, env) == Smallest(EvalSeq(e.Operands(), env))
    ensures e.Or? ==> Eval(e, env) == Largest(EvalSeq(e.Operands(), env))
  {
    EvalFromSeq(e, 0, env);
    assert e.Operands()[0..] == e.Operands();
  }

  /** What an operand contributes to a flattened AND has the operand's own meaning. */
  lemma AndOperandsMeaning(e: Expr, env: Env)
    ensures Smallest(EvalSeq(AndOperands(e), env)) == Eval(e, env)
  {
    if e.And? {
      NodeMeaning(e, env);
    } else {
      assert AndOperands(e)[1..] == [];
    }
  }

  /** What an operand contributes to a flattened OR has the operand's own meaning. */
  lemma OrOperandsMeaning(e: Expr, env: Env)
    ensures Largest(EvalSeq(OrOperands(e), env)) == Eval(e, env)
  {
    if e.Or? {
      NodeMeaning(e, env);
    } else {
      assert OrOperands(e)[1..] == [];
    }
  }

  /** A one-element list has its element's meaning, as a minimum or as a maximum. */
  lemma SingleMeaning(e: Expr, env: Env)
    ensures Smallest(EvalSeq([e], env)) == Eval(e, env)
    ensures Largest(EvalSeq([e], env)) == Eval(e, env)
  {
    assert [e][1..] == [];
  }

  /** The nested nodes And(left, right) and Or(left, right). */
  lemma PairMeaning(left: Expr, right: Expr, env: Env)
    ensures Eval(And(left, [right]), env) == PairMin(Eval(left, env), Eval(right, env))
    ensures Eval(Or(left, [right]), env) == PairMax(Eval(left, env), Eval(right, env))
  {
    NodeMeaning(And(left, [right]), env);
    NodeMeaning(Or(left, [right]), env);
    assert And(left, [right]).Operands() == [left] + [right];
    EvalSeqAppend([left], [right], env);
    JoinMin(EvalSeq([left], env), EvalSeq([right], env));
    JoinMax(EvalSeq([left], env), EvalSeq([right], env));
    SingleMeaning(left, env);
    SingleMeaning(right, env);
  }

  /** The flat AND that parseLogicalCombination builds means the same as And(left, right). */
  lemma ConjoinMeaning(left: Expr, right: Expr, env: Env)
    ensures Eval(Conjoin(left, right), env) == Eval(And(left, [right]), env)
  {
    var x, y := EvalSeq(AndOperands(left), env), EvalSeq(AndOperands(right), env);
    ConjoinOperands(left, right);
    calc {
      Eval(Conjoin(left, right), env);
      { NodeMeaning(Conjoin(left, right), env); }
      Smallest(EvalSeq(AndOperands(left) + AndOperands(right), env));
      { EvalSeqAppend(AndOperands(left), AndOperands(right), env); }
      Smallest(Join(x, y));
      { JoinMin(x, y); }
      PairMin(Smallest(x), Smallest(y));
      { AndOperandsMeaning(left, env); AndOperandsMeaning(right, env); }
      PairMin(Eval(left, env), Eval(right, env));
      { PairMeaning(left, right, env); }
      Eval(And(left, [right]), env);
    }
  }

  /** The flat OR that parseLogicalCombination builds means the same as Or(left, right). */
  lemma DisjoinMeaning(left: Expr, right: Expr, env: Env)
    ensures Eval(Disjoin(left, right), env) == Eval(Or(left, [right]), env)
  {
    var x, y := EvalSeq(OrOperands(left), env), EvalSeq(OrOperands(right), env);
    ConjoinOperands(left, right);
    calc {
      Eval(Disjoin(left, right), env);
      { NodeMeaning(Disjoin(left, right), env); }
      Largest(EvalSeq(OrOperands(left) + OrOperands(right), env));
      { EvalSeqAppend(OrOperands(left), OrOperands(right), env); }
      Largest(Join(x, y));
      { JoinMax(x, y); }
      PairMax(Largest(x), Largest(y));
      { OrOperandsMeaning(left, env); OrOperandsMeaning(right, env); }
      PairMax(Eval(left, env), Eval(right, env));
      { PairMeaning(left, right, env); }
      Eval(Or(left, [right]), env);
    }
  }
}
