/**
 * The evaluation context (context.go): the variables by name and the crisp inputs, both
 * fixed once built, and the results that AddResult accumulates in place.
 */
module Contexts {
  import opened Wrappers
  import opened FuzzyErrors
  import opened MembershipFunctions
  import opened Catalog
  import opened ResultSelection

  /** The read-only part of a Context: the variables by name and the crisp input values. */
  datatype Env = Env(variables: map<string, Catalog.Variable>, inputs: map<string, real>) {
    /** Context.Variable: the registered variable, else ErrUndefinedVariable. */
    function Variable(name: string): (r: Outcome<Catalog.Variable, FuzzyError>)
      ensures r.Ok? <==> name in variables
      ensures r.Ok? ==> r.value == variables[name]
      ensures r.Fail? ==> r.error == UndefinedVariable
    {
      if name in variables then Ok(variables[name]) else Fail(UndefinedVariable)
    }

    /** Context.Value: the crisp input of the variable, else ErrValueNotFound. */
    function Value(name: string): (r: Outcome<real, FuzzyError>)
      ensures r.Ok? <==> name in inputs
      ensures r.Ok? ==> r.value == inputs[name]
      ensures r.Fail? ==> r.error == ValueNotFound
    {
      if name in inputs then Ok(inputs[name]) else Fail(ValueNotFound)
    }
  }

  /** No two variables of the list share a name. */
  predicate DistinctVariableNames(vs: seq<Catalog.Variable>) {
    forall i, j :: 0 <= i < j < |vs| ==> vs[i].name != vs[j].name
  }

  /** The variables of the list indexed by their names. */
  function IndexVariables(vs: seq<Catalog.Variable>): map<string, Catalog.Variable>
    requires DistinctVariableNames(vs)
  {
    map i | 0 <= i < |vs| :: vs[i].name := vs[i]
  }

  /** The membership of a term clipped at a truth degree: Min(Constant(td), membership). */
  function Clip(td: real, t: Term): Membership {
    MinOf(Constant(td), [t.membership])
  }

  /**
   * One rule's contribution folded into the result already held for its term, if any: the
   * highest truth degree so far and the Max of the clipped memberships.
   */
  function Merge(existing: Option<ResultSelection.Result>, t: Term, td: real): ResultSelection.Result {
    match existing
    case None => ResultSelection.Result(t.name, td, Clip(td, t))
    case Some(r) => ResultSelection.Result(r.term, RMax(r.truthDegree, td), MaxOf(r.membership, [Clip(td, t)]))
  }

  /** The results after AddResult(variable, t, td). */
  function AddTo(rs: Results, variable: string, t: Term, td: real): Results {
    var terms := Entries(rs, variable);
    var existing := if t.name in terms then Some(terms[t.name]) else None;
    rs[variable := terms[t.name := Merge(existing, t, td)]]
  }

  class Context {
    const env: Env
    var results: Results

    /** The context literal: the given variables and inputs, and no result yet. */
    constructor (env: Env)
      ensures this.env == env && results == map[]
    {
      this.env := env;
      results := map[];
    }

    /** Context.Result: the results of one variable, empty when it has none. */
    function Result(variable: string): (r: map<string, ResultSelection.Result>)
      reads this
      ensures variable in results ==> r == results[variable]
      ensures variable !in results ==> r == map[]
    {
      Entries(results, variable)
    }

    /**
     * Context.AddResult: records a rule's truth degree for `term` of `variable`, creating the
     * variable's map and the term's entry on first use.
     */
    method AddResult(variable: string, term: Term, truthDegree: real)
      modifies this
      ensures results == AddTo(old(results), variable, term, truthDegree)
    {
      var terms := if variable in results then results[variable] else map[];
      var result: ResultSelection.Result;
      var existing := if term.name in terms then Some(terms[term.name]) else None;
      var clipped := Clip(truthDegree, term);
      if existing.None? {
        result := ResultSelection.Result(term.name, truthDegree, clipped);
      } else {
        result := existing.value;
        result := result.(membership := MaxOf(result.membership, [clipped]));
      }
      result := result.(truthDegree := RMax(result.truthDegree, truthDegree));
      terms := terms[term.name := result];
      results := results[variable := terms];
    }
  }

  /**
   * NewContext: indexes the variables by name, aborting with ErrVariableAlreadyExists (a
   * panic in the source) on the first name met twice; the inputs are kept as given and the
   * results start empty.
   */
  method NewContext(vs: seq<Catalog.Variable>, inputs: map<string, real>) returns (r: Outcome<Context, FuzzyError>)
    ensures r.Ok? <==> DistinctVariableNames(vs)
    ensures r.Fail? ==> r.error == VariableAlreadyExists
    ensures r.Ok? ==> fresh(r.value) && r.value.results == map[]
    ensures r.Ok? ==> r.value.env == Env(IndexVariables(vs), inputs)
  {
    var vars: map<string, Catalog.Variable> := map[];
    for i := 0 to |vs|
      invariant DistinctVariableNames(vs[..i])
      invariant vars == IndexVariables(vs[..i])
    {
      if vs[i].name in vars {
        VariableIndexDuplicate(vs, i);
        return Fail(VariableAlreadyExists);
      }
      VariableIndexStep(vs, i);
      vars := vars[vs[i].name := vs[i]];
    }
    assert vs[..|vs|] == vs;
    var c := new Context(Env(vars, inputs));
    return Ok(c);
  }

  lemma VariableIndexStep(vs: seq<Catalog.Variable>, i: nat)
    requires i < |vs| && DistinctVariableNames(vs[..i]) && vs[i].name !in IndexVariables(vs[..i])
    ensures DistinctVariableNames(vs[..i + 1])
    ensures IndexVariables(vs[..i + 1]) == IndexVariables(vs[..i])[vs[i].name := vs[i]]
  {
    var p, q := vs[..i], vs[..i + 1];
    assert forall j :: 0 <= j < i ==> q[j] == p[j];
    forall j | 0 <= j < i ensures q[j].name != q[i].name {
      assert p[j].name in IndexVariables(p);
    }
  }

  lemma VariableIndexDuplicate(vs: seq<Catalog.Variable>, i: nat)
    requires i < |vs| && DistinctVariableNames(vs[..i]) && vs[i].name in IndexVariables(vs[..i])
    ensures !DistinctVariableNames(vs)
  {
    var j :| 0 <= j < i && vs[..i][j].name == vs[i].name;
    assert vs[j].name == vs[i].name;
  }

  // ---------------------------------------------------------------------------------
  // Properties of AddResult

  /**
   * The stored truth degree is the new one on the first call for a term and the larger of
   * the previous and the new one afterwards.
   */
  lemma AddToDegree(rs: Results, variable: string, t: Term, td: real)
    ensures t.name in AddTo(rs, variable, t, td)[variable]
    ensures t.name !in Entries(rs, variable) ==>
      AddTo(rs, variable, t, td)[variable][t.name].truthDegree == td
    ensures t.name in Entries(rs, variable) ==>
      AddTo(rs, variable, t, td)[variable][t.name].truthDegree ==
        RMax(Entries(rs, variable)[t.name].truthDegree, td)
    ensures td <= AddTo(rs, variable, t, td)[variable][t.name].truthDegree
  {
  }

  /** Min(Constant(td), m) is the pointwise minimum of td and m. */
  lemma ClipValue(td: real, t: Term, x: real)
    ensures Value(Clip(td, t), x) == RMin(td, Value(t.membership, x))
  {
    var vs := OperandValues(Clip(td, t), x);
    assert vs == [td, Value(t.membership, x)];
    assert Value(Clip(td, t), x) == MinAll(vs);
    assert MinAll(vs) == RMin(MinAll(vs[..1]), vs[1]);
    assert vs[..1] == [td];
  }

  /** Max(a, b) is the pointwise maximum of a and b. */
  lemma MaxPairValue(a: Membership, b: Membership, x: real)
    ensures Value(MaxOf(a, [b]), x) == RMax(Value(a, x), Value(b, x))
  {
    var vs := OperandValues(MaxOf(a, [b]), x);
    assert vs == [Value(a, x), Value(b, x)];
    assert Value(MaxOf(a, [b]), x) == MaxAll(vs);
    assert MaxAll(vs) == RMax(MaxAll(vs[..1]), vs[1]);
    assert vs[..1] == [Value(a, x)];
  }

  /**
   * At every point the stored membership is the term's membership clipped at td, combined
   * by maximum with what was stored before.
   */
  lemma AddToMembership(rs: Results, variable: string, t: Term, td: real, x: real)
    ensures t.name !in Entries(rs, variable) ==>
      Value(AddTo(rs, variable, t, td)[variable][t.name].membership, x) == RMin(td, Value(t.membership, x))
    ensures t.name in Entries(rs, variable) ==>
      Value(AddTo(rs, variable, t, td)[variable][t.name].membership, x) ==
        RMax(Value(Entries(rs, variable)[t.name].membership, x), RMin(td, Value(t.membership, x)))
  {
    ClipValue(td, t, x);
    if t.name in Entries(rs, variable) {
      MaxPairValue(Entries(rs, variable)[t.name].membership, Clip(td, t), x);
    }
  }

  /** AddResult touches results[variable][t.name] and no other entry. */
  lemma AddToFrame(rs: Results, variable: string, t: Term, td: real)
    ensures AddTo(rs, variable, t, td).Keys == rs.Keys + {variable}
    ensures AddTo(rs, variable, t, td)[variable].Keys == Entries(rs, variable).Keys + {t.name}
    ensures forall v :: v in rs && v != variable ==> AddTo(rs, variable, t, td)[v] == rs[v]
    ensures forall n :: n in Entries(rs, variable) && n != t.name ==>
      AddTo(rs, variable, t, td)[variable][n] == Entries(rs, variable)[n]
  {
  }
}
