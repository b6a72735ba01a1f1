/**
 * Fuzzy expressions (is.go, and.go, or.go, not.go): a closed tree of IS tests combined by
 * AND (minimum), OR (maximum) and NOT (complement), evaluated against a context.
 */
module Expressions {
  import opened Wrappers
  import opened Floats
  import opened FuzzyErrors
  import opened MembershipFunctions
  import opened Catalog
  import opened Contexts

  /**
   * Is(variable, term) (also spelt Set); And and Or carry at least one operand, `first`
   * followed by `rest`, in the order given.
   */
  datatype Expr =
    | Is(variable: string, term: string)
    | And(first: Expr, rest: seq<Expr>)
    | Or(first: Expr, rest: seq<Expr>)
    | Not(operand: Expr)
  {
    /** The operands of an And or Or, in the order given. */
    function Operands(): (es: seq<Expr>)
      requires And? || Or?
      ensures |es| == 1 + |rest| && es[0] == first && es[1..] == rest
    {
      [first] + rest
    }
  }

  /** And(es...): ErrMissingArguments (a panic in the source) for no operand. */
  function MakeAnd(es: seq<Expr>): (r: Outcome<Expr, FuzzyError>)
    ensures r.Fail? <==> es == []
    ensures r.Fail? ==> r.error == MissingArguments
    ensures r.Ok? ==> r.value.And? && r.value.Operands() == es
  {
    if es == [] then Fail(MissingArguments) else Ok(And(es[0], es[1..]))
  }

  /** Or(es...): ErrMissingArguments (a panic in the source) for no operand. */
  function MakeOr(es: seq<Expr>): (r: Outcome<Expr, FuzzyError>)
    ensures r.Fail? <==> es == []
    ensures r.Fail? ==> r.error == MissingArguments
    ensures r.Ok? ==> r.value.Or? && r.value.Operands() == es
  {
    if es == [] then Fail(MissingArguments) else Ok(Or(es[0], es[1..]))
  }

  /** The i-th operand of an And or Or, structurally below it. */
  function Operand(e: Expr, i: nat): (op: Expr)
    requires (e.And? || e.Or?) && i < 1 + |e.rest|
    ensures op == e.Operands()[i] && op < e
  {
    if i == 0 then e.first else e.rest[i - 1]
  }

  /**
   * The value of an expression, or the first error met: IS looks up the variable, then its
   * term, then the input value; AND and OR evaluate their operands left to right.
   */
  function Eval(e: Expr, env: Env): Outcome<real, FuzzyError>
    decreases e, 1
  {
    match e
    case Is(v, t) =>
      var variable :- env.Variable(v);
      var term :- variable.Term(t);
      var x :- env.Value(v);
      Ok(Value(term.membership, x))
    case And(_, _) =>
      var vs :- EvalFrom(e, 0, env);
      Ok(MinAll(vs))
    case Or(_, _) =>
      var vs :- EvalFrom(e, 0, env);
      Ok(MaxAll(vs))
    case Not(operand) =>
      var v :- Eval(operand, env);
      Ok(1.0 - v)
  }

  /** The values of the operands from the i-th on, or the first of their errors. */
  function EvalFrom(e: Expr, i: nat, env: Env): (r: Outcome<seq<real>, FuzzyError>)
    requires (e.And? || e.Or?) && i <= 1 + |e.rest|
    ensures r.Ok? ==> |r.value| == 1 + |e.rest| - i
    decreases e, 0, 1 + |e.rest| - i
  {
    if i == 1 + |e.rest| then Ok([])
    else
      var v :- Eval(Operand(e, i), env);
      var vs :- EvalFrom(e, i + 1, env);
      Ok([v] + vs)
  }

  /** Operands from i on that all succeed give EvalFrom their values, in order. */
  lemma {:induction false} EvalFromAllOk(e: Expr, i: nat, env: Env, vs: seq<real>)
    requires (e.And? || e.Or?) && i <= 1 + |e.rest| && |vs| == 1 + |e.rest| - i
    requires forall k :: 0 <= k < |vs| ==> Eval(Operand(e, i + k), env) == Ok(vs[k])
    ensures EvalFrom(e, i, env) == Ok(vs)
    decreases |vs|
  {
    if |vs| > 0 {
      forall k | 0 <= k < |vs[1..]| ensures Eval(Operand(e, i + 1 + k), env) == Ok(vs[1..][k]) {
        assert Eval(Operand(e, i + (k + 1)), env) == Ok(vs[k + 1]);
      }
      EvalFromAllOk(e, i + 1, env, vs[1..]);
      assert Eval(Operand(e, i + 0), env) == Ok(vs[0]);
      assert vs == [vs[0]] + vs[1..];
    }
  }

  /** A successful EvalFrom holds, in order, the values of the operands from i on. */
  lemma {:induction false} EvalFromOkValues(e: Expr, i: nat, env: Env)
    requires (e.And? || e.Or?) && i <= 1 + |e.rest| && EvalFrom(e, i, env).Ok?
    ensures forall k :: 0 <= k < 1 + |e.rest| - i ==>
      Eval(Operand(e, i + k), env) == Ok(EvalFrom(e, i, env).value[k])
  {
    forall k | 0 <= k < 1 + |e.rest| - i ensures Eval(Operand(e, i + k), env) == Ok(EvalFrom(e, i, env).value[k]) {
      EvalFromOkAt(e, i, env, k);
    }
  }

  /** The k-th value of a successful EvalFrom from i is that of operand i + k. */
  lemma {:induction false} EvalFromOkAt(e: Expr, i: nat, env: Env, k: nat)
    requires (e.And? || e.Or?) && i + k < 1 + |e.rest| && EvalFrom(e, i, env).Ok?
    ensures Eval(Operand(e, i + k), env) == Ok(EvalFrom(e, i, env).value[k])
    decreases k
  {
    if k > 0 {
      EvalFromOkAt(e, i + 1, env, k - 1);
    }
  }

  /** The first failing operand from i on, after successes only, makes EvalFrom fail with its error. */
  lemma {:induction false} EvalFromFirstFail(e: Expr, i: nat, j: nat, env: Env)
    requires (e.And? || e.Or?) && i <= j < 1 + |e.rest|
    requires forall k :: i <= k < j ==> Eval(Operand(e, k), env).Ok?
    requires Eval(Operand(e, j), env).Fail?
    ensures EvalFrom(e, i, env) == Fail(Eval(Operand(e, j), env).error)
    decreases j - i
  {
    if i < j {
      EvalFromFirstFail(e, i + 1, j, env);
    }
  }

  /** A failing EvalFrom fails with the error of its first failing operand from i on. */
  lemma {:induction false} EvalFromFailSource(e: Expr, i: nat, env: Env)
    requires (e.And? || e.Or?) && i <= 1 + |e.rest| && EvalFrom(e, i, env).Fail?
    ensures exists j :: i <= j < 1 + |e.rest| && Eval(Operand(e, j), env) == Fail(EvalFrom(e, i, env).error) &&
                        forall k :: i <= k < j ==> Eval(Operand(e, k), env).Ok?
    decreases 1 + |e.rest| - i
  {
    if Eval(Operand(e, i), env).Ok? {
      EvalFromFailSource(e, i + 1, env);
      var j :| i + 1 <= j < 1 + |e.rest| && Eval(Operand(e, j), env) == Fail(EvalFrom(e, i + 1, env).error) &&
        forall k :: i + 1 <= k < j ==> Eval(Operand(e, k), env).Ok?;
      assert forall k :: i <= k < j ==> Eval(Operand(e, k), env).Ok?;
    }
  }

  /**
   * IsExpr.Value, AndExpr.Value, OrExpr.Value and NotExpr.Value. AND and OR keep a running
   * minimum (maximum) seeded with +Inf (-Inf) and return at the first operand error;
   * nothing in the context is changed.
   */
  method ValueOf(e: Expr, ctx: Context) returns (r: Outcome<real, FuzzyError>)
    ensures r == Eval(e, ctx.env)
    decreases e, 1
  {
    match e {
      case Is(v, t) =>
        var variable := ctx.env.Variable(v);
        if variable.Fail? { return Fail(variable.error); }
        var term := variable.value.Term(t);
        if term.Fail? { return Fail(term.error); }
        var x := ctx.env.Value(v);
        if x.Fail? { return Fail(x.error); }
        return Ok(Value(term.value.membership, x.value));
      case Not(operand) =>
        var v := ValueOf(operand, ctx);
        if v.Fail? { return Fail(v.error); }
        return Ok(1.0 - v.value);
      case And(_, _) =>
        r := AndValue(e, ctx);
      case Or(_, _) =>
        r := OrValue(e, ctx);
    }
  }

  /** AndExpr.Value: a running minimum seeded with +Inf, returning at the first operand error. */
  method AndValue(e: Expr, ctx: Context) returns (r: Outcome<real, FuzzyError>)
    requires e.And?
    ensures r == Eval(e, ctx.env)
    decreases e, 0
  {
    var min := PosInf;
    ghost var vs: seq<real> := [];
    for i := 0 to 1 + |e.rest|
      invariant |vs| == i
      invariant forall k :: 0 <= k < i ==> Eval(Operand(e, k), ctx.env) == Ok(vs[k])
      invariant i == 0 ==> min == PosInf
      invariant i > 0 ==> min == Fin(MinAll(vs))
    {
      var v := ValueOf(Operand(e, i), ctx);
      if v.Fail? {
        OperandFails(e, i, ctx.env);
        return Fail(v.error);
      }
      RunningMin(vs + [v.value], i, min);
      vs := OperandsGrow(e, i, ctx.env, vs, v.value);
      min := Floats.Min(min, Fin(v.value));
    }
    OperandsSucceed(e, ctx.env, vs);
    return Ok(min.r);
  }

  /** OrExpr.Value: a running maximum seeded with -Inf, returning at the first operand error. */
  method OrValue(e: Expr, ctx: Context) returns (r: Outcome<real, FuzzyError>)
    requires e.Or?
    ensures r == Eval(e, ctx.env)
    decreases e, 0
  {
    var max := NegInf;
    ghost var vs: seq<real> := [];
    for i := 0 to 1 + |e.rest|
      invariant |vs| == i
      invariant forall k :: 0 <= k < i ==> Eval(Operand(e, k), ctx.env) == Ok(vs[k])
      invariant i == 0 ==> max == NegInf
      invariant i > 0 ==> max == Fin(MaxAll(vs))
    {
      var v := ValueOf(Operand(e, i), ctx);
      if v.Fail? {
        OperandFails(e, i, ctx.env);
        return Fail(v.error);
      }
      RunningMax(vs + [v.value], i, max);
      vs := OperandsGrow(e, i, ctx.env, vs, v.value);
      max := Floats.Max(max, Fin(v.value));
    }
    OperandsSucceed(e, ctx.env, vs);
    return Ok(max.r);
  }

  /** The values of the first i operands followed by that of the i-th. */
  ghost function OperandsGrow(e: Expr, i: nat, env: Env, vs: seq<real>, v: real): (ws: seq<real>)
    requires (e.And? || e.Or?) && i < 1 + |e.rest| && |vs| == i
    requires forall k :: 0 <= k < i ==> Eval(Operand(e, k), env) == Ok(vs[k])
    requires Eval(Operand(e, i), env) == Ok(v)
    ensures ws == vs + [v] && ws[..i] == vs && ws[..i + 1] == ws
    ensures forall k :: 0 <= k < i + 1 ==> Eval(Operand(e, k), env) == Ok(ws[k])
  {
    vs + [v]
  }

  /** Operands that all succeed give AND their minimum and OR their maximum. */
  lemma OperandsSucceed(e: Expr, env: Env, vs: seq<real>)
    requires (e.And? || e.Or?) && |vs| == 1 + |e.rest|
    requires forall k :: 0 <= k < |vs| ==> Eval(Operand(e, k), env) == Ok(vs[k])
    ensures e.And? ==> Eval(e, env) == Ok(MinAll(vs))
    ensures e.Or? ==> Eval(e, env) == Ok(MaxAll(vs))
  {
    EvalFromAllOk(e, 0, env, vs);
  }

  /** The first failing operand, after successes only, makes AND and OR fail with its error. */
  lemma OperandFails(e: Expr, i: nat, env: Env)
    requires (e.And? || e.Or?) && i < 1 + |e.rest|
    requires forall k :: 0 <= k < i ==> Eval(Operand(e, k), env).Ok?
    requires Eval(Operand(e, i), env).Fail?
    ensures Eval(e, env) == Fail(Eval(Operand(e, i), env).error)
  {
    EvalFromFirstFail(e, 0, i, env);
  }

  // ---------------------------------------------------------------------------------
  // Properties of evaluation

  /**
   * IS reports the first failing lookup, in the order variable, term, input; when all three
   * succeed its value is the term's membership at the input.
   */
  lemma IsLookupOrder(env: Env, v: string, t: string)
    ensures v !in env.variables ==> Eval(Is(v, t), env) == Fail(UndefinedVariable)
    ensures v in env.variables && t !in env.variables[v].terms ==> Eval(Is(v, t), env) == Fail(UndefinedTerm)
    ensures v in env.variables && t in env.variables[v].terms && v !in env.inputs ==>
      Eval(Is(v, t), env) == Fail(ValueNotFound)
    ensures v in env.variables && t in env.variables[v].terms && v in env.inputs ==>
      Eval(Is(v, t), env) == Ok(Value(env.variables[v].terms[t].membership, env.inputs[v]))
  {
  }

  /**
   * A successful AND is the minimum of its operands' values (at most each of them and equal
   * to one), a successful OR their maximum; every operand then succeeds.
   */
  lemma AndOrBounds(e: Expr, env: Env)
    requires (e.And? || e.Or?) && Eval(e, env).Ok?
    ensures forall i :: 0 <= i < 1 + |e.rest| ==> Eval(Operand(e, i), env).Ok?
    ensures e.And? ==> forall i :: 0 <= i < 1 + |e.rest| ==> Eval(e, env).value <= Eval(Operand(e, i), env).value
    ensures e.Or? ==> forall i :: 0 <= i < 1 + |e.rest| ==> Eval(Operand(e, i), env).value <= Eval(e, env).value
    ensures exists i :: 0 <= i < 1 + |e.rest| && Eval(e, env).value == Eval(Operand(e, i), env).value
  {
    var vs := OperandValuesOf(e, env);
    if e.And? {
      MinAllBounds(vs);
    } else {
      MaxAllBounds(vs);
    }
  }

  /** The values of the operands of a successful AND or OR, and its value from them. */
  lemma OperandValuesOf(e: Expr, env: Env) returns (vs: seq<real>)
    requires (e.And? || e.Or?) && Eval(e, env).Ok?
    ensures |vs| == 1 + |e.rest| && vs == EvalFrom(e, 0, env).value
    ensures forall i :: 0 <= i < |vs| ==> Eval(Operand(e, i), env) == Ok(vs[i])
    ensures Eval(e, env).value == if e.And? then MinAll(vs) else MaxAll(vs)
  {
    vs := EvalFrom(e, 0, env).value;
    EvalFromOkValues(e, 0, env);
    forall i | 0 <= i < |vs| ensures Eval(Operand(e, i), env) == Ok(vs[i]) {
      assert Eval(Operand(e, 0 + i), env) == Ok(vs[i]);
    }
  }

  /**
   * AND and OR fail exactly when some operand fails after all operands before it succeeded,
   * and then with that operand's error.
   */
  lemma AndOrFirstError(e: Expr, env: Env, err: FuzzyError)
    requires e.And? || e.Or?
    ensures Eval(e, env) == Fail(err) <==>
      exists j :: 0 <= j < 1 + |e.rest| && Eval(Operand(e, j), env) == Fail(err) &&
        forall k :: 0 <= k < j ==> Eval(Operand(e, k), env).Ok?
  {
    if Eval(e, env) == Fail(err) {
      EvalFromFailSource(e, 0, env);
    }
    if exists j :: 0 <= j < 1 + |e.rest| && Eval(Operand(e, j), env) == Fail(err) &&
        forall k :: 0 <= k < j ==> Eval(Operand(e, k), env).Ok? {
      var j :| 0 <= j < 1 + |e.rest| && Eval(Operand(e, j), env) == Fail(err) &&
        forall k :: 0 <= k < j ==> Eval(Operand(e, k), env).Ok?;
      EvalFromFirstFail(e, 0, j, env);
    }
  }

  /**
   * NOT is the complement of its operand and propagates its error; it maps [0, 1] into
   * [0, 1], and NOT NOT e has the value of e.
   */
  lemma NotComplement(e: Expr, env: Env)
    ensures Eval(e, env).Ok? ==> Eval(Not(e), env) == Ok(1.0 - Eval(e, env).value)
    ensures Eval(e, env).Fail? ==> Eval(Not(e), env) == Fail(Eval(e, env).error)
    ensures Eval(e, env).Ok? && 0.0 <= Eval(e, env).value <= 1.0 ==> 0.0 <= Eval(Not(e), env).value <= 1.0
    ensures Eval(Not(Not(e)), env) == Eval(e, env)
  {
  }

  /** Every term of every variable of the context has a normalised membership. */
  predicate NormalisedEnv(env: Env) {
    forall v, t :: v in env.variables && t in env.variables[v].terms ==>
      Normalised(env.variables[v].terms[t].membership)
  }

  /** Over normalised memberships every successful evaluation is a degree in [0, 1]. */
  lemma {:induction false} EvalInUnit(e: Expr, env: Env)
    requires NormalisedEnv(env) && Eval(e, env).Ok?
    ensures 0.0 <= Eval(e, env).value <= 1.0
    decreases e
  {
    match e
    case Is(v, t) =>
      ValueNormalised(env.variables[v].terms[t].membership, env.inputs[v]);
    case Not(operand) =>
      EvalInUnit(operand, env);
    case And(_, _) =>
      AndOrBounds(e, env);
      var i :| 0 <= i < 1 + |e.rest| && Eval(e, env).value == Eval(Operand(e, i), env).value;
      EvalInUnit(Operand(e, i), env);
    case Or(_, _) =>
      AndOrBounds(e, env);
      var i :| 0 <= i < 1 + |e.rest| && Eval(e, env).value == Eval(Operand(e, i), env).value;
      EvalInUnit(Operand(e, i), env);
  }
}
