/** Rules (rule.go): a premise and, once Then has been called, an IS conclusion. */
module FuzzyRules {
  import opened Wrappers
  import opened Expressions

  /** The conclusion of a rule is always an IS expression. */
  type IsExpr = e: Expr | e.Is? witness Is("", "")

  class Rule {
    var premise: Expr
    /** None stands for the nil conclusion of a rule built by If and not yet given Then. */
    var conclusion: Option<IsExpr>

    /** If(e): premise e and no conclusion. */
    constructor If(e: Expr)
      ensures premise == e && conclusion == None
    {
      premise := e;
      conclusion := None;
    }

    /** NewRule(p, c): premise and conclusion exactly as given. */
    constructor (p: Expr, c: Option<IsExpr>)
      ensures premise == p && conclusion == c
    {
      premise := p;
      conclusion := c;
    }

    /** Rule.Then: sets the conclusion to Is(variable, term) and returns the same rule. */
    method Then(variable: string, term: string) returns (r: Rule)
      modifies this
      ensures r == this
      ensures premise == old(premise)
      ensures conclusion == Some(Is(variable, term))
    {
      conclusion := Some(Is(variable, term));
      r := this;
    }
  }
}
