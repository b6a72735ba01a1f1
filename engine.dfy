/**
 * The inference engine (engine.go): fires the rules in order into a fresh context and
 * defuzzifies one variable's aggregated result.
 */
module Inference {
  import opened Wrappers
  import opened Floats
  import opened FuzzyErrors
  import opened MembershipFunctions
  import opened Catalog
  import opened ResultSelection
  import opened Contexts
  import opened Expressions
  import opened FuzzyRules

  /**
   * A DefuzzifyFunc: one of the two built-in stepping defuzzifiers, whose floating-point
   * loops are not part of this model, or a caller's own function.
   */
  datatype Defuzzifier =
    | Centroid(steps: int)
    | MeanOfMaximum(steps: int)
    | Custom(f: (Membership, Float, Float) -> Float)

  /** The numbers the built-in defuzzifiers compute, supplied from outside the model. */
  type Numeric = (Defuzzifier, Membership, Float, Float) -> Float

  /** Calls a defuzzify function on a membership and the universe bounds. */
  function Apply(d: Defuzzifier, numeric: Numeric, m: Membership, lo: Float, hi: Float): Float {
    match d
    case Custom(f) => f(m, lo, hi)
    case _ => numeric(d, m, lo, hi)
  }

  /** The premise and conclusion of a rule, read at one moment. */
  datatype RuleData = RuleData(premise: Expr, conclusion: IsExpr)

  // ---------------------------------------------------------------------------------
  // What Infer computes

  /**
   * One rule fired into the results: the conclusion's variable, then its term, then the
   * premise's value; the first failure aborts.
   */
  function Fire(rd: RuleData, env: Env, rs: Results): Outcome<Results, FuzzyError> {
    var variable :- env.Variable(rd.conclusion.variable);
    var term :- variable.Term(rd.conclusion.term);
    var td :- Eval(rd.premise, env);
    Ok(AddTo(rs, rd.conclusion.variable, term, td))
  }

  /** The rules fired in order; the first failing rule aborts and no result is kept. */
  function FireAll(rds: seq<RuleData>, env: Env, rs: Results): Outcome<Results, FuzzyError>
    decreases |rds|
  {
    if rds == [] then Ok(rs)
    else
      var next :- Fire(rds[0], env, rs);
      FireAll(rds[1..], env, next)
  }

  /**
   * Engine.Infer on a snapshot of the rules: a context over the engine's variables (a
   * duplicate variable name aborts, a panic in the source) and the rules fired in order.
   */
  function InferSpec(rds: seq<RuleData>, vs: seq<Catalog.Variable>, inputs: map<string, real>): Outcome<Results, FuzzyError> {
    if DistinctVariableNames(vs) then FireAll(rds, Env(IndexVariables(vs), inputs), map[])
    else Fail(VariableAlreadyExists)
  }

  /** A rule as Infer meets it: its premise, and its conclusion, None when Then was never called. */
  datatype RuleView = RuleView(premise: Expr, conclusion: Option<IsExpr>)

  /** The index of the first rule without a conclusion, or the number of rules when there is none. */
  function FirstUnconcluded(rvs: seq<RuleView>): (n: nat)
    ensures n <= |rvs|
    ensures forall j :: 0 <= j < n ==> rvs[j].conclusion.Some?
    ensures n < |rvs| ==> rvs[n].conclusion.None?
  {
    if rvs == [] || rvs[0].conclusion.None? then 0 else 1 + FirstUnconcluded(rvs[1..])
  }

  /** Rules that all have a conclusion, as premise and conclusion pairs. */
  function Conclusions(rvs: seq<RuleView>): (rds: seq<RuleData>)
    requires forall j :: 0 <= j < |rvs| ==> rvs[j].conclusion.Some?
  {
    seq(|rvs|, j requires 0 <= j < |rvs| && rvs[j].conclusion.Some? => RuleData(rvs[j].premise, rvs[j].conclusion.value))
  }

  /**
   * Engine.Infer on the rules as they are: the rules before the first one without a
   * conclusion fire as InferSpec says; reaching a rule without one is the nil-pointer panic.
   */
  function InferRules(rvs: seq<RuleView>, vs: seq<Catalog.Variable>, inputs: map<string, real>): Outcome<Results, FuzzyError> {
    var n := FirstUnconcluded(rvs);
    var fired := InferSpec(Conclusions(rvs[..n]), vs, inputs);
    if fired.Ok? && n < |rvs| then Fail(NilConclusion) else fired
  }

  /** When every rule has a conclusion, Infer is InferSpec over all of them. */
  lemma InferConcluded(rvs: seq<RuleView>, vs: seq<Catalog.Variable>, inputs: map<string, real>)
    requires forall j :: 0 <= j < |rvs| ==> rvs[j].conclusion.Some?
    ensures InferRules(rvs, vs, inputs) == InferSpec(Conclusions(rvs), vs, inputs)
  {
    assert FirstUnconcluded(rvs) == |rvs|;
    assert rvs[..|rvs|] == rvs;
  }

  /**
   * A rule without a conclusion, reached after the rules before it fired without error, makes
   * Infer fail with the nil-pointer panic; an earlier error or a duplicate variable comes first.
   */
  lemma InferNilConclusion(rvs: seq<RuleView>, vs: seq<Catalog.Variable>, inputs: map<string, real>, k: nat)
    requires k < |rvs| && rvs[k].conclusion.None?
    requires forall j :: 0 <= j < k ==> rvs[j].conclusion.Some?
    ensures InferSpec(Conclusions(rvs[..k]), vs, inputs).Ok? ==> InferRules(rvs, vs, inputs) == Fail(NilConclusion)
    ensures InferSpec(Conclusions(rvs[..k]), vs, inputs).Fail? ==>
      InferRules(rvs, vs, inputs) == InferSpec(Conclusions(rvs[..k]), vs, inputs)
  {
    var n := FirstUnconcluded(rvs);
    assert !(n < k) by {
      if n < k {
        assert false;
      }
    }
  }

  /** The first variable of the list that carries the name. */
  function FirstNamed(vs: seq<Catalog.Variable>, name: string): (i: nat)
    requires exists j :: 0 <= j < |vs| && vs[j].name == name
    ensures i < |vs| && vs[i].name == name
    ensures forall j :: 0 <= j < i ==> vs[j].name != name
  {
    if vs[0].name == name then 0
    else
      assert exists j :: 0 <= j < |vs[1..]| && vs[1..][j].name == name by {
        var j :| 0 <= j < |vs| && vs[j].name == name;
        assert vs[1..][j - 1] == vs[j];
      }
      1 + FirstNamed(vs[1..], name)
  }

  /** The keys of a map, each once, in some order. */
  ghost predicate IsOrdering(order: seq<string>, keys: set<string>) {
    (forall k :: k in order <==> k in keys) && forall i, j :: 0 <= i < j < |order| ==> order[i] != order[j]
  }

  /** Max over the memberships of the results, taken in the given order. */
  function Aggregate(es: map<string, ResultSelection.Result>, order: seq<string>): (m: Membership)
    requires |order| > 0 && forall k :: k in order ==> k in es
    ensures m.MaxOf? && |m.rest| + 1 == |order|
  {
    MaxOf(es[order[0]].membership, seq(|order| - 1, i requires 0 <= i < |order| - 1 => es[order[i + 1]].membership))
  }

  class Engine {
    var rules: seq<Rule>
    var variables: seq<Catalog.Variable>
    var defuzzify: Defuzzifier

    /** NewEngine: no rule and no variable; no defuzzify function means Centroid(1000). */
    constructor (d: Option<Defuzzifier>)
      ensures rules == [] && variables == []
      ensures d.None? ==> defuzzify == Centroid(1000)
      ensures d.Some? ==> defuzzify == d.value
    {
      rules := [];
      variables := [];
      defuzzify := if d.None? then Centroid(1000) else d.value;
    }

    /** The rules' premises and conclusions, in order. */
    function Snapshot(): (rvs: seq<RuleView>)
      reads this, rules
      ensures |rvs| == |rules|
      ensures forall i :: 0 <= i < |rules| ==>
        rvs[i].premise == rules[i].premise && rvs[i].conclusion == rules[i].conclusion
    {
      seq(|rules|, i requires 0 <= i < |rules| reads this, rules => RuleView(rules[i].premise, rules[i].conclusion))
    }

    /**
     * Engine.Infer: fires every rule in order into a fresh context and returns its results;
     * any failing lookup or premise aborts with no result, and so does a rule without a
     * conclusion, whose nil pointer the source dereferences.
     */
    method Infer(values: map<string, real>) returns (r: Outcome<Results, FuzzyError>)
      ensures r == InferRules(Snapshot(), variables, values)
    {
      var c := NewContext(variables, values);
      if c.Fail? {
        return Fail(c.error);
      }
      var ctx := c.value;
      ghost var rvs := Snapshot();
      ghost var n := FirstUnconcluded(rvs);
      ghost var rds := Conclusions(rvs[..n]);
      ghost var env := ctx.env;
      for i := 0 to |rules|
        invariant ctx.env == env
        invariant i <= n
        invariant FireAll(rds, env, map[]) == FireAll(rds[i..], env, ctx.results)
      {
        var rule := rules[i];
        if rule.conclusion.None? {
          assert rds[i..] == [];
          return Fail(NilConclusion);
        }
        assert rds[i..] == [rds[i]] + rds[i + 1..];
        var conclusion := rule.conclusion.value;
        var outputVariable := ctx.env.Variable(conclusion.variable);
        if outputVariable.Fail? {
          return Fail(outputVariable.error);
        }
        var outputTerm := outputVariable.value.Term(conclusion.term);
        if outputTerm.Fail? {
          return Fail(outputTerm.error);
        }
        var truthDegree := ValueOf(rule.premise, ctx);
        if truthDegree.Fail? {
          return Fail(truthDegree.error);
        }
        ctx.AddResult(conclusion.variable, outputTerm.value, truthDegree.value);
      }
      assert rvs[..n] == rvs;
      return Ok(ctx.results);
    }

    /**
     * Engine.Defuzzify: the first engine variable with the name (else ErrUndefinedVariable);
     * the midpoint of its universe when it has no result; otherwise the defuzzify function,
     * called once on the Max of all its results' memberships, gathered in map order, and on
     * the universe bounds.
     */
    method Defuzzify(variableName: string, results: Results, numeric: Numeric)
      returns (r: Outcome<Float, FuzzyError>, ghost order: seq<string>)
      ensures r.Fail? <==> forall i :: 0 <= i < |variables| ==> variables[i].name != variableName
      ensures r.Fail? ==> r.error == UndefinedVariable
      ensures r.Ok? && Entries(results, variableName) == map[] ==>
        var v := variables[FirstNamed(variables, variableName)];
        r.value == Midpoint(v.universeMin, v.universeMax)
      ensures r.Ok? && Entries(results, variableName) != map[] ==>
        var v := variables[FirstNamed(variables, variableName)];
        IsOrdering(order, Entries(results, variableName).Keys) &&
        r.value == Apply(defuzzify, numeric, Aggregate(Entries(results, variableName), order), v.universeMin, v.universeMax)
    {
      order := [];
      var target: Option<Catalog.Variable> := None;
      var i := 0;
      while i < |variables|
        invariant 0 <= i <= |variables|
        invariant forall j :: 0 <= j < i ==> variables[j].name != variableName
      {
        if variables[i].name == variableName {
          assert FirstNamed(variables, variableName) == i;
          target := Some(variables[i]);
          break;
        }
        i := i + 1;
      }
      if target.None? {
        return Fail(UndefinedVariable), order;
      }
      var v := target.value;
      if variableName !in results || |results[variableName]| == 0 {
        return Ok(Midpoint(v.universeMin, v.universeMax)), order;
      }
      var variableResults := results[variableName];
      var memberships: seq<Membership> := [];
      var remaining := variableResults.Keys;
      while remaining != {}
        invariant remaining <= variableResults.Keys
        invariant forall k :: k in order <==> k in variableResults && k !in remaining
        invariant forall a, b :: 0 <= a < b < |order| ==> order[a] != order[b]
        invariant |memberships| == |order|
        invariant forall a :: 0 <= a < |order| ==> memberships[a] == variableResults[order[a]].membership
        decreases remaining
      {
        var k :| k in remaining;
        memberships := memberships + [variableResults[k].membership];
        order := order + [k];
        remaining := remaining - {k};
      }
      assert |order| > 0 by {
        var k :| k in variableResults;
      }
      var aggregated := MaxOf(memberships[0], memberships[1..]);
      assert aggregated == Aggregate(variableResults, order);
      r := Ok(Apply(defuzzify, numeric, aggregated, v.universeMin, v.universeMax));
    }

    /** Engine.Variables: replaces the whole variable list and returns the same engine. */
    method Variables(vs: seq<Catalog.Variable>) returns (e: Engine)
      modifies this
      ensures e == this && variables == vs
      ensures rules == old(rules) && defuzzify == old(defuzzify)
    {
      variables := vs;
      e := this;
    }

    /** Engine.Rules: replaces the whole rule list and returns the same engine. */
    method Rules(rs: seq<Rule>) returns (e: Engine)
      modifies this
      ensures e == this && rules == rs
      ensures variables == old(variables) && defuzzify == old(defuzzify)
    {
      rules := rs;
      e := this;
    }
  }

  // ---------------------------------------------------------------------------------
  // Properties of inference

  /** Results hold an entry for term t of variable v. */
  predicate Has(rs: Results, v: string, t: string) {
    v in rs && t in rs[v]
  }

  /** The rule concludes Is(v, t). */
  predicate Concludes(rd: RuleData, v: string, t: string) {
    rd.conclusion.variable == v && rd.conclusion.term == t
  }

  /** Every variable of the context indexes its terms under their own names. */
  predicate ValidEnv(env: Env) {
    forall v :: v in env.variables ==> env.variables[v].Valid()
  }

  /** A fired rule adds the entry of its conclusion, at least at its premise's value. */
  lemma FireStep(rd: RuleData, env: Env, rs: Results)
    requires ValidEnv(env) && Fire(rd, env, rs).Ok?
    ensures Eval(rd.premise, env).Ok?
    ensures forall v, t :: Has(Fire(rd, env, rs).value, v, t) <==> Has(rs, v, t) || Concludes(rd, v, t)
    ensures Has(Fire(rd, env, rs).value, rd.conclusion.variable, rd.conclusion.term)
    ensures var td := Fire(rd, env, rs).value[rd.conclusion.variable][rd.conclusion.term].truthDegree;
      Eval(rd.premise, env).value <= td &&
      (td == Eval(rd.premise, env).value ||
       (Has(rs, rd.conclusion.variable, rd.conclusion.term) &&
        td == rs[rd.conclusion.variable][rd.conclusion.term].truthDegree))
    ensures forall v, t :: Has(rs, v, t) ==>
      rs[v][t].truthDegree <= Fire(rd, env, rs).value[v][t].truthDegree
    ensures forall v, t :: Has(rs, v, t) && !Concludes(rd, v, t) ==> Fire(rd, env, rs).value[v][t] == rs[v][t]
  {
    var v, t := rd.conclusion.variable, rd.conclusion.term;
    var term := env.variables[v].Term(t).value;
    assert term.name == t;
    var td := Eval(rd.premise, env).value;
    AddToDegree(rs, v, term, td);
    AddToFrame(rs, v, term, td);
  }

  /** The entries after firing the rules are those before and those of the rules' conclusions. */
  lemma {:induction false} FireAllEntries(rds: seq<RuleData>, env: Env, rs: Results)
    requires ValidEnv(env) && FireAll(rds, env, rs).Ok?
    ensures forall i :: 0 <= i < |rds| ==> Eval(rds[i].premise, env).Ok?
    ensures forall v, t :: Has(FireAll(rds, env, rs).value, v, t) <==>
      Has(rs, v, t) || exists i :: 0 <= i < |rds| && Concludes(rds[i], v, t)
    decreases |rds|
  {
    if rds != [] {
      var next := Fire(rds[0], env, rs).value;
      FireStep(rds[0], env, rs);
      FireAllEntries(rds[1..], env, next);
      assert forall i :: 0 < i < |rds| ==> rds[i] == rds[1..][i - 1];
    }
  }

  /**
   * After firing, an entry's truth degree is at least its earlier degree and at least the
   * premise value of every rule concluding it.
   */
  lemma {:induction false} FireAllUpperBound(rds: seq<RuleData>, env: Env, rs: Results)
    requires ValidEnv(env) && FireAll(rds, env, rs).Ok?
    ensures forall i :: 0 <= i < |rds| ==> Eval(rds[i].premise, env).Ok?
    ensures forall v, t :: Has(rs, v, t) ==>
      Has(FireAll(rds, env, rs).value, v, t) &&
      rs[v][t].truthDegree <= FireAll(rds, env, rs).value[v][t].truthDegree
    ensures forall i :: 0 <= i < |rds| ==>
      Has(FireAll(rds, env, rs).value, rds[i].conclusion.variable, rds[i].conclusion.term) &&
      Eval(rds[i].premise, env).value <=
        FireAll(rds, env, rs).value[rds[i].conclusion.variable][rds[i].conclusion.term].truthDegree
    decreases |rds|
  {
    if rds != [] {
      var next := Fire(rds[0], env, rs).value;
      FireStep(rds[0], env, rs);
      FireAllUpperBound(rds[1..], env, next);
      assert forall i :: 0 < i < |rds| ==> rds[i] == rds[1..][i - 1];
    }
  }

  /**
   * After firing, an entry's truth degree is its earlier degree or the premise value of a
   * rule concluding it.
   */
  lemma {:induction false} FireAllAttained(rds: seq<RuleData>, env: Env, rs: Results, v: string, t: string)
    requires ValidEnv(env) && FireAll(rds, env, rs).Ok? && Has(FireAll(rds, env, rs).value, v, t)
    ensures (Has(rs, v, t) && FireAll(rds, env, rs).value[v][t].truthDegree == rs[v][t].truthDegree) ||
      exists i :: 0 <= i < |rds| && Concludes(rds[i], v, t) && Eval(rds[i].premise, env).Ok? &&
        FireAll(rds, env, rs).value[v][t].truthDegree == Eval(rds[i].premise, env).value
    decreases |rds|
  {
    if rds != [] {
      var next := Fire(rds[0], env, rs).value;
      var res: Results := FireAll(rds, env, rs).value;
      assert res == FireAll(rds[1..], env, next).value;
      FireStep(rds[0], env, rs);
      FireAllAttained(rds[1..], env, next, v, t);
      if exists i :: 0 <= i < |rds[1..]| && Concludes(rds[1..][i], v, t) && Eval(rds[1..][i].premise, env).Ok? &&
          res[v][t].truthDegree == Eval(rds[1..][i].premise, env).value {
        var i :| 0 <= i < |rds[1..]| && Concludes(rds[1..][i], v, t) && Eval(rds[1..][i].premise, env).Ok? &&
          res[v][t].truthDegree == Eval(rds[1..][i].premise, env).value;
        assert rds[1..][i] == rds[i + 1];
      } else if Concludes(rds[0], v, t) {
        if res[v][t].truthDegree == Eval(rds[0].premise, env).value {
          assert Concludes(rds[0], v, t) && Eval(rds[0].premise, env).Ok?;
        }
      }
    }
  }

  /**
   * After a successful Infer, (v, t) has an entry exactly when some rule concludes Is(v, t),
   * whatever its premise's value; the entry's truth degree is the highest premise value of
   * those rules.
   */
  lemma InferEntries(rds: seq<RuleData>, vs: seq<Catalog.Variable>, inputs: map<string, real>, v: string, t: string)
    requires forall i :: 0 <= i < |vs| ==> vs[i].Valid()
    requires InferSpec(rds, vs, inputs).Ok?
    ensures Has(InferSpec(rds, vs, inputs).value, v, t) <==> exists i :: 0 <= i < |rds| && Concludes(rds[i], v, t)
    ensures Has(InferSpec(rds, vs, inputs).value, v, t) ==>
      var env := Env(IndexVariables(vs), inputs);
      (forall i :: 0 <= i < |rds| && Concludes(rds[i], v, t) ==>
        Eval(rds[i].premise, env).Ok? &&
        Eval(rds[i].premise, env).value <= InferSpec(rds, vs, inputs).value[v][t].truthDegree) &&
      (exists i :: 0 <= i < |rds| && Concludes(rds[i], v, t) && Eval(rds[i].premise, env).Ok? &&
        Eval(rds[i].premise, env).value == InferSpec(rds, vs, inputs).value[v][t].truthDegree)
  {
    var env := Env(IndexVariables(vs), inputs);
    assert ValidEnv(env);
    FireAllEntries(rds, env, map[]);
    FireAllUpperBound(rds, env, map[]);
    if Has(InferSpec(rds, vs, inputs).value, v, t) {
      FireAllAttained(rds, env, map[], v, t);
    }
  }

  /** The operands of the aggregate are the results' memberships in the given order. */
  lemma AggregateOperands(es: map<string, ResultSelection.Result>, order: seq<string>)
    requires |order| > 0 && forall k :: k in order ==> k in es
    ensures forall i :: 0 <= i < |order| ==> Aggregate(es, order).Operands()[i] == es[order[i]].membership
  {
    var m := Aggregate(es, order);
    forall i | 0 < i < |order| ensures m.Operands()[i] == es[order[i]].membership {
      assert m.Operands()[i] == m.rest[i - 1];
    }
  }

  /** The aggregated value is the greatest value among the results' memberships. */
  lemma AggregateValue(es: map<string, ResultSelection.Result>, order: seq<string>, x: real)
    requires |order| > 0 && forall k :: k in order ==> k in es
    ensures forall k :: k in order ==> Value(es[k].membership, x) <= Value(Aggregate(es, order), x)
    ensures exists k :: k in order && Value(es[k].membership, x) == Value(Aggregate(es, order), x)
  {
    var m := Aggregate(es, order);
    MinMaxPointwise(m, x);
    AggregateOperands(es, order);
    forall k | k in order ensures Value(es[k].membership, x) <= Value(m, x) {
      var i :| 0 <= i < |order| && order[i] == k;
      assert m.Operands()[i] in m.Operands();
    }
    var op :| op in m.Operands() && Value(m, x) == Value(op, x);
    var i :| 0 <= i < |m.Operands()| && m.Operands()[i] == op;
    assert order[i] in order;
  }

  /** The aggregated domain is the least lower and greatest upper bound of the results' domains. */
  lemma AggregateDomain(es: map<string, ResultSelection.Result>, order: seq<string>)
    requires |order| > 0 && forall k :: k in order ==> k in es
    ensures forall k :: k in order ==>
      Domain(Aggregate(es, order)).0 <= Domain(es[k].membership).0 &&
      Domain(es[k].membership).1 <= Domain(Aggregate(es, order)).1
    ensures exists k :: k in order && Domain(es[k].membership).0 == Domain(Aggregate(es, order)).0
    ensures exists k :: k in order && Domain(es[k].membership).1 == Domain(Aggregate(es, order)).1
  {
    var m := Aggregate(es, order);
    var d := Domain(m);
    MinMaxDomain(m);
    AggregateOperands(es, order);
    forall k | k in order
      ensures d.0 <= Domain(es[k].membership).0 && Domain(es[k].membership).1 <= d.1
    {
      var i :| 0 <= i < |order| && order[i] == k;
      assert m.Operands()[i] in m.Operands();
    }
    var lo :| lo in m.Operands() && d.0 == Domain(lo).0;
    var i :| 0 <= i < |m.Operands()| && m.Operands()[i] == lo;
    assert order[i] in order;
    var hi :| hi in m.Operands() && d.1 == Domain(hi).1;
    var j :| 0 <= j < |m.Operands()| && m.Operands()[j] == hi;
    assert order[j] in order;
  }

  /**
   * The aggregated membership does not depend on the order the results were gathered in:
   * any two orderings give the same value at every point.
   */
  lemma AggregateValueOrderFree(es: map<string, ResultSelection.Result>, o1: seq<string>, o2: seq<string>, x: real)
    requires es != map[] && IsOrdering(o1, es.Keys) && IsOrdering(o2, es.Keys)
    ensures Value(Aggregate(es, o1), x) == Value(Aggregate(es, o2), x)
  {
    var k :| k in es;
    assert k in o1 && k in o2;
    AggregateValue(es, o1, x);
    AggregateValue(es, o2, x);
    var k1 :| k1 in o1 && Value(es[k1].membership, x) == Value(Aggregate(es, o1), x);
    var k2 :| k2 in o2 && Value(es[k2].membership, x) == Value(Aggregate(es, o2), x);
    assert k1 in o2 && k2 in o1;
  }

  /** Nor does its domain. */
  lemma AggregateDomainOrderFree(es: map<string, ResultSelection.Result>, o1: seq<string>, o2: seq<string>)
    requires es != map[] && IsOrdering(o1, es.Keys) && IsOrdering(o2, es.Keys)
    ensures Domain(Aggregate(es, o1)) == Domain(Aggregate(es, o2))
  {
    var k :| k in es;
    assert k in o1 && k in o2;
    var d1, d2 := Domain(Aggregate(es, o1)), Domain(Aggregate(es, o2));
    AggregateDomain(es, o1);
    AggregateDomain(es, o2);
    var a1 :| a1 in o1 && Domain(es[a1].membership).0 == d1.0;
    var a2 :| a2 in o2 && Domain(es[a2].membership).0 == d2.0;
    var b1 :| b1 in o1 && Domain(es[b1].membership).1 == d1.1;
    var b2 :| b2 in o2 && Domain(es[b2].membership).1 == d2.1;
    assert a1 in o2 && a2 in o1 && b1 in o2 && b2 in o1;
    assert d2.0 <= Domain(es[a1].membership).0 && d1.0 <= Domain(es[a2].membership).0;
    assert Domain(es[b1].membership).1 <= d2.1 && Domain(es[b2].membership).1 <= d1.1;
    assert d1.0 == d2.0 && d1.1 == d2.1;
  }
}

/** The air-conditioning example of the engine's documentation, worked through the model. */
module AcModeExample {
  import opened Wrappers
  import opened MembershipFunctions
  import opened Catalog
  import opened ResultSelection
  import opened Expressions
  import opened Inference
  import opened Contexts

  function TemperatureTerms(): seq<Term> {
    [Term("cold", Inverted(Linear(-10.0, 10.0))),
     Term("comfortable", Trapezoid(5.0, 18.0, 22.0, 25.0)),
     Term("hot", Linear(20.0, 30.0))]
  }

  function AcModeTerms(): seq<Term> {
    [Term("heating", Linear(0.0, 100.0)),
     Term("off", Triangular(-50.0, 0.0, 50.0)),
     Term("cooling", Inverted(Linear(-100.0, 0.0)))]
  }

  function ExampleRules(): seq<RuleData> {
    [RuleData(Is("temperature", "cold"), Is("ac_mode", "heating")),
     RuleData(Is("temperature", "comfortable"), Is("ac_mode", "off")),
     RuleData(Is("temperature", "hot"), Is("ac_mode", "cooling"))]
  }

  /** The temperature variable builds and finds each of its terms under its name. */
  lemma TemperatureCatalog()
    ensures BuildVariable("temperature", TemperatureTerms()).Ok?
    ensures var v := BuildVariable("temperature", TemperatureTerms()).value;
      v.name == "temperature" && forall i :: 0 <= i < 3 ==> v.Term(TemperatureTerms()[i].name) == Ok(TemperatureTerms()[i])
  {
    assert DistinctNames(TemperatureTerms());
    TermLookup("temperature", TemperatureTerms(), "");
  }

  /** The ac_mode variable builds and finds each of its terms under its name. */
  lemma AcModeCatalog()
    ensures BuildVariable("ac_mode", AcModeTerms()).Ok?
    ensures var v := BuildVariable("ac_mode", AcModeTerms()).value;
      v.name == "ac_mode" && forall i :: 0 <= i < 3 ==> v.Term(AcModeTerms()[i].name) == Ok(AcModeTerms()[i])
  {
    assert DistinctNames(AcModeTerms());
    TermLookup("ac_mode", AcModeTerms(), "");
  }

  /** A context over two differently named variables finds each under its name. */
  lemma PairLookup(t: Catalog.Variable, a: Catalog.Variable, inputs: map<string, real>)
    requires t.name == "temperature" && a.name == "ac_mode"
    ensures DistinctVariableNames([t, a])
    ensures Env(IndexVariables([t, a]), inputs).Variable("temperature") == Ok(t)
    ensures Env(IndexVariables([t, a]), inputs).Variable("ac_mode") == Ok(a)
  {
    var vs := [t, a];
    assert vs[0] == t && vs[1] == a;
    var index := IndexVariables(vs);
    assert "temperature" in index && "ac_mode" in index;
  }

  /** The three premises at 30 degrees: cold 0, comfortable 0, hot 1. */
  lemma PremisesAt30(env: Env, t: Catalog.Variable)
    requires env.Variable("temperature") == Ok(t)
    requires env.inputs == map["temperature" := 30.0]
    requires forall i :: 0 <= i < 3 ==> t.Term(TemperatureTerms()[i].name) == Ok(TemperatureTerms()[i])
    ensures Eval(Is("temperature", "cold"), env) == Ok(0.0)
    ensures Eval(Is("temperature", "comfortable"), env) == Ok(0.0)
    ensures Eval(Is("temperature", "hot"), env) == Ok(1.0)
  {
    var ts := TemperatureTerms();
    assert t.Term("cold") == Ok(ts[0]) && t.Term("comfortable") == Ok(ts[1]) && t.Term("hot") == Ok(ts[2]);
    assert env.Value("temperature") == Ok(30.0);
    assert Value(Linear(-10.0, 10.0), 30.0) == 1.0;
    assert Value(Linear(20.0, 30.0), 30.0) == 1.0;
  }

  /** What the three rules record at 30 degrees: heating 0, off 0, cooling 1. */
  function ResultsAt30(): Results {
    var us := AcModeTerms();
    AddTo(AddTo(AddTo(map[], "ac_mode", us[0], 0.0), "ac_mode", us[1], 0.0), "ac_mode", us[2], 1.0)
  }

  /** The rules fired in order, given the premises' degrees and the ac_mode terms. */
  lemma FiringAt30(env: Env, a: Catalog.Variable)
    requires env.Variable("ac_mode") == Ok(a)
    requires forall i :: 0 <= i < 3 ==> a.Term(AcModeTerms()[i].name) == Ok(AcModeTerms()[i])
    requires Eval(Is("temperature", "cold"), env) == Ok(0.0)
    requires Eval(Is("temperature", "comfortable"), env) == Ok(0.0)
    requires Eval(Is("temperature", "hot"), env) == Ok(1.0)
    ensures FireAll(ExampleRules(), env, map[]) == Ok(ResultsAt30())
  {
    var rds, us := ExampleRules(), AcModeTerms();
    assert a.Term("heating") == Ok(us[0]) && a.Term("off") == Ok(us[1]) && a.Term("cooling") == Ok(us[2]);
    var r1 := AddTo(map[], "ac_mode", us[0], 0.0);
    var r2 := AddTo(r1, "ac_mode", us[1], 0.0);
    assert Fire(rds[0], env, map[]) == Ok(r1);
    assert Fire(rds[1], env, r1) == Ok(r2);
    assert Fire(rds[2], env, r2) == Ok(ResultsAt30());
    assert FireAll(rds[2..], env, r2) == Ok(ResultsAt30()) by { assert rds[2..][1..] == []; }
    assert FireAll(rds[1..], env, r1) == Ok(ResultsAt30()) by { assert rds[1..][1..] == rds[2..]; }
  }

  /** The three ac_mode entries at 30 degrees. */
  lemma EntriesAt30()
    ensures var es := Entries(ResultsAt30(), "ac_mode");
      es.Keys == {"heating", "off", "cooling"} &&
      es["heating"].truthDegree == 0.0 && es["off"].truthDegree == 0.0 &&
      es["cooling"].term == "cooling" && es["cooling"].truthDegree == 1.0
  {
  }

  /** Best("ac_mode") on the results at 30 degrees is the cooling result, with degree 1. */
  method BestAt30() returns (b: Option<ResultSelection.Result>)
    ensures b.Some? && b.value.term == "cooling" && b.value.truthDegree == 1.0
  {
    EntriesAt30();
    var es := Entries(ResultsAt30(), "ac_mode");
    assert !TopDegree(es, 0.0) by {
      assert es["cooling"].truthDegree == 1.0;
    }
    b := Best(ResultsAt30(), "ac_mode");
    var k :| k in es && es[k] == b.value;
    assert k == "cooling";
  }

  /**
   * At 30 degrees "hot" holds fully and "cold" and "comfortable" not at all, so the three
   * ac_mode terms get 0, 0 and 1: cooling is the only term of highest degree.
   */
  lemma AcModeAt30()
    ensures BuildVariable("temperature", TemperatureTerms()).Ok?
    ensures BuildVariable("ac_mode", AcModeTerms()).Ok?
    ensures var vs := [BuildVariable("temperature", TemperatureTerms()).value, BuildVariable("ac_mode", AcModeTerms()).value];
      var r := InferSpec(ExampleRules(), vs, map["temperature" := 30.0]);
      r.Ok? && Entries(r.value, "ac_mode").Keys == {"heating", "off", "cooling"} &&
      Entries(r.value, "ac_mode")["heating"].truthDegree == 0.0 &&
      Entries(r.value, "ac_mode")["off"].truthDegree == 0.0 &&
      Entries(r.value, "ac_mode")["cooling"].term == "cooling" &&
      Entries(r.value, "ac_mode")["cooling"].truthDegree == 1.0
  {
    TemperatureCatalog();
    AcModeCatalog();
    var t := BuildVariable("temperature", TemperatureTerms()).value;
    var a := BuildVariable("ac_mode", AcModeTerms()).value;
    var inputs := map["temperature" := 30.0];
    PairLookup(t, a, inputs);
    var env := Env(IndexVariables([t, a]), inputs);
    PremisesAt30(env, t);
    FiringAt30(env, a);
    assert InferSpec(ExampleRules(), [t, a], inputs) == Ok(ResultsAt30());
    EntriesAt30();
  }
}
