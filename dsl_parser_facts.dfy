/**
 * Properties of the parser of the rule language (dsl/expressions.go, dsl/variables.go,
 * dsl/parser.go), stated over the functions that the Parser methods are proved to follow.
 */
module DslParserFacts {
  import opened Wrappers
  import opened FuzzyErrors
  import opened MembershipFunctions
  import opened Catalog
  import opened Expressions
  import opened Inference
  import opened DslTokens
  import opened DslMemberships
  import opened DslParser

  // ---------------------------------------------------------------------------------
  // Rules

  /** The recovery loops stop at the first token of kind `k` from `c` on. */
  lemma {:induction false} SkipToFirst(tokens: seq<Token>, c: nat, k: Kind)
    requires c <= |tokens|
    ensures forall j :: c <= j < SkipTo(tokens, c, k) ==> tokens[j].kind != k
    decreases |tokens| - c
  {
    if c < |tokens| && tokens[c].kind != k {
      SkipToFirst(tokens, c + 1, k);
    }
  }

  /**
   * A statement that does not start with IF is an error at its first token, naming it; the
   * cursor moves just past the next `;`, or to the end when there is none.
   */
  lemma RuleWithoutIf(tokens: seq<Token>, c: nat)
    requires c < |tokens| && tokens[c].kind != IF
    ensures var r := RuleStatement(tokens, c);
      r.item.None? && r.error == Some(ParseError(RuleStart(tokens[c].value), tokens[c].pos)) &&
      c < r.cursor && (forall j :: c <= j < r.cursor - 1 ==> tokens[j].kind != SEMI) &&
      (tokens[r.cursor - 1].kind == SEMI || (r.cursor == |tokens| && forall j :: c <= j < |tokens| ==> tokens[j].kind != SEMI))
  {
    SkipToFirst(tokens, c, SEMI);
  }

  /** parseIsExpression succeeds exactly on `name IS name`, returns both names and consumes three tokens. */
  lemma IsExpressionExact(tokens: seq<Token>, c: nat)
    requires c <= |tokens|
    ensures IsExpression(tokens, c).Done? <==>
      c + 3 <= |tokens| && tokens[c].kind == VARIABLE && tokens[c + 1].kind == IS && tokens[c + 2].kind == VARIABLE
    ensures IsExpression(tokens, c).Done? ==> IsExpression(tokens, c) == Done((tokens[c].value, tokens[c + 2].value), c + 3)
  {
  }

  /** A premise not followed by THEN: an error at the token after it, or at the last token at the end. */
  lemma RuleMissingThen(tokens: seq<Token>, c: nat)
    requires c < |tokens| && tokens[c].kind == IF
    requires var p := Expression(tokens, c + 1); p.Done? && !(p.cursor < |tokens| && tokens[p.cursor].kind == THEN)
    ensures var p := Expression(tokens, c + 1);
      RuleStatement(tokens, c) ==
        Statement(None, Some(ParseError(MissingThen, if p.cursor < |tokens| then tokens[p.cursor].pos else tokens[|tokens| - 1].pos)), p.cursor)
  {
  }

  /**
   * A rule without its `;` is returned together with the error, positioned at the token after
   * the conclusion (or the last token), and the cursor moves to the next IF or to the end.
   */
  lemma RuleMissingSemicolon(tokens: seq<Token>, c: nat)
    requires c < |tokens| && tokens[c].kind == IF
    requires var p := Expression(tokens, c + 1);
      p.Done? && p.cursor < |tokens| && tokens[p.cursor].kind == THEN && IsExpression(tokens, p.cursor + 1).Done? &&
      !(p.cursor + 4 < |tokens| && tokens[p.cursor + 4].kind == SEMI)
    ensures var p := Expression(tokens, c + 1); var k := p.cursor + 4; var r := RuleStatement(tokens, c);
      k <= |tokens| &&
      r.item == Some(RuleData(p.value, Is(tokens[p.cursor + 1].value, tokens[p.cursor + 3].value))) &&
      r.error == Some(ParseError(MissingSemicolon, if k < |tokens| then tokens[k].pos else tokens[k - 1].pos)) &&
      k <= r.cursor <= |tokens| && (r.cursor < |tokens| ==> tokens[r.cursor].kind == IF) &&
      forall j :: k <= j < r.cursor ==> tokens[j].kind != IF
  {
    var p := Expression(tokens, c + 1);
    IsExpressionExact(tokens, p.cursor + 1);
    SkipToFirst(tokens, p.cursor + 4, IF);
  }

  /**
   * A rule is read without error exactly when it is `IF premise THEN name IS name ;`; it then
   * holds the premise and the conclusion, and the cursor is just past the `;`.
   */
  lemma RuleWellFormed(tokens: seq<Token>, c: nat)
    requires c < |tokens|
    ensures var r := RuleStatement(tokens, c); var p := Expression(tokens, c + 1);
      (r.error.None? <==>
        tokens[c].kind == IF && p.Done? && p.cursor + 5 <= |tokens| && tokens[p.cursor].kind == THEN &&
        tokens[p.cursor + 1].kind == VARIABLE && tokens[p.cursor + 2].kind == IS &&
        tokens[p.cursor + 3].kind == VARIABLE && tokens[p.cursor + 4].kind == SEMI) &&
      (r.error.None? ==>
        r == Statement(Some(RuleData(p.value, Is(tokens[p.cursor + 1].value, tokens[p.cursor + 3].value))), None, p.cursor + 5))
  {
    var p := Expression(tokens, c + 1);
    if tokens[c].kind == IF {
      assert RuleStatement(tokens, c) == RuleAfterIf(tokens, c + 1);
      if p.Done? && p.cursor < |tokens| && tokens[p.cursor].kind == THEN {
        assert RuleAfterIf(tokens, c + 1) == RuleAfterThen(tokens, p.value, p.cursor + 1);
        ConclusionWellFormed(tokens, p.value, p.cursor + 1);
      }
    }
  }

  /** After THEN a rule is read without error exactly when `name IS name ;` follows. */
  lemma ConclusionWellFormed(tokens: seq<Token>, premise: Expr, k: nat)
    requires 0 < k <= |tokens|
    ensures var r := RuleAfterThen(tokens, premise, k);
      (r.error.None? <==>
        k + 4 <= |tokens| && tokens[k].kind == VARIABLE && tokens[k + 1].kind == IS &&
        tokens[k + 2].kind == VARIABLE && tokens[k + 3].kind == SEMI) &&
      (r.error.None? ==> r == Statement(Some(RuleData(premise, Is(tokens[k].value, tokens[k + 2].value))), None, k + 4))
  {
    IsExpressionExact(tokens, k);
  }

  // ---------------------------------------------------------------------------------
  // Expressions

  /** `name IS name` starting at `i`. */
  predicate IsAt(tokens: seq<Token>, i: nat) {
    i + 3 <= |tokens| && tokens[i].kind == VARIABLE && tokens[i + 1].kind == IS && tokens[i + 2].kind == VARIABLE
  }

  /** The Is node of the IS expression starting at `i`. */
  function IsNode(tokens: seq<Token>, i: nat): Expr
    requires i + 2 < |tokens|
  {
    Is(tokens[i].value, tokens[i + 2].value)
  }

  /** NOT before a name negates that one IS expression; an AND or OR after it takes the negation as its left side. */
  lemma NotTakesOneIs(tokens: seq<Token>, c: nat)
    requires c < |tokens| && tokens[c].kind == NOT && IsAt(tokens, c + 1)
    ensures Expression(tokens, c) == Combination(tokens, c + 4, Not(IsNode(tokens, c + 1)))
  {
    assert SimpleExpression(tokens, c + 1) == Done(IsNode(tokens, c + 1), c + 4);
  }

  /** `( e` without its `)`: the error "missing closing parenthesis" after `e`, or at the last token. */
  lemma UnclosedParen(tokens: seq<Token>, c: nat)
    requires c < |tokens| && tokens[c].kind == LPAREN
    requires var e := Expression(tokens, c + 1); e.Done? && !(e.cursor < |tokens| && tokens[e.cursor].kind == RPAREN)
    ensures var e := Expression(tokens, c + 1);
      Expression(tokens, c) ==
        Error(ParseError(MissingClosingParen, if e.cursor < |tokens| then tokens[e.cursor].pos else tokens[|tokens| - 1].pos), e.cursor)
  {
  }

  /**
   * No precedence, in general: after an IS expression, AND or OR takes the whole expression
   * that follows as its right side and flattens the pair; with no connective the IS
   * expression stands alone.
   */
  lemma ConnectiveTakesRest(tokens: seq<Token>, c: nat)
    requires IsAt(tokens, c)
    ensures c + 3 < |tokens| && tokens[c + 3].kind == AND && Expression(tokens, c + 4).Done? ==>
      var right := Expression(tokens, c + 4);
      Expression(tokens, c) == Done(Conjoin(IsNode(tokens, c), right.value), right.cursor)
    ensures c + 3 < |tokens| && tokens[c + 3].kind == OR && Expression(tokens, c + 4).Done? ==>
      var right := Expression(tokens, c + 4);
      Expression(tokens, c) == Done(Disjoin(IsNode(tokens, c), right.value), right.cursor)
    ensures !(c + 3 < |tokens| && (tokens[c + 3].kind == AND || tokens[c + 3].kind == OR)) ==>
      Expression(tokens, c) == Done(IsNode(tokens, c), c + 3)
  {
    assert SimpleExpression(tokens, c) == Done(IsNode(tokens, c), c + 3);
  }

  /** No precedence between AND and OR: `a AND b OR c` is And(a, Or(b, c)). */
  lemma AndOrNesting(tokens: seq<Token>)
    requires |tokens| == 11 && IsAt(tokens, 0) && tokens[3].kind == AND && IsAt(tokens, 4) && tokens[7].kind == OR && IsAt(tokens, 8)
    ensures Expression(tokens, 0) ==
      Done(And(IsNode(tokens, 0), [Or(IsNode(tokens, 4), [IsNode(tokens, 8)])]), 11)
  {
    var a, b, c := IsNode(tokens, 0), IsNode(tokens, 4), IsNode(tokens, 8);
    assert SimpleExpression(tokens, 8) == Done(c, 11);
    assert Expression(tokens, 8) == Done(c, 11);
    assert SimpleExpression(tokens, 4) == Done(b, 7);
    assert Expression(tokens, 4) == Done(Or(b, [c]), 11);
    assert SimpleExpression(tokens, 0) == Done(a, 3);
  }

  /** No precedence between OR and AND: `a OR b AND c` is Or(a, And(b, c)). */
  lemma OrAndNesting(tokens: seq<Token>)
    requires |tokens| == 11 && IsAt(tokens, 0) && tokens[3].kind == OR && IsAt(tokens, 4) && tokens[7].kind == AND && IsAt(tokens, 8)
    ensures Expression(tokens, 0) ==
      Done(Or(IsNode(tokens, 0), [And(IsNode(tokens, 4), [IsNode(tokens, 8)])]), 11)
  {
    var a, b, c := IsNode(tokens, 0), IsNode(tokens, 4), IsNode(tokens, 8);
    assert SimpleExpression(tokens, 8) == Done(c, 11);
    assert Expression(tokens, 8) == Done(c, 11);
    assert SimpleExpression(tokens, 4) == Done(b, 7);
    assert Expression(tokens, 4) == Done(And(b, [c]), 11);
    assert SimpleExpression(tokens, 0) == Done(a, 3);
  }

  /** A chain of ANDs is one flat And: `a AND b AND c` is And(a, b, c). */
  lemma AndChainFlattens(tokens: seq<Token>)
    requires |tokens| == 11 && IsAt(tokens, 0) && tokens[3].kind == AND && IsAt(tokens, 4) && tokens[7].kind == AND && IsAt(tokens, 8)
    ensures Expression(tokens, 0) == Done(And(IsNode(tokens, 0), [IsNode(tokens, 4), IsNode(tokens, 8)]), 11)
  {
    var a, b, c := IsNode(tokens, 0), IsNode(tokens, 4), IsNode(tokens, 8);
    assert SimpleExpression(tokens, 8) == Done(c, 11);
    assert Expression(tokens, 8) == Done(c, 11);
    assert SimpleExpression(tokens, 4) == Done(b, 7);
    assert Expression(tokens, 4) == Done(And(b, [c]), 11);
    assert SimpleExpression(tokens, 0) == Done(a, 3);
    assert Conjoin(a, And(b, [c])) == And(a, [b, c]);
  }

  /**
   * The flattened node: the left side's operands (or the left side) then the right side's
   * operands (or the right side), so never fewer than two.
   */
  lemma ConjoinOperands(left: Expr, right: Expr)
    ensures Conjoin(left, right).And? && Conjoin(left, right).Operands() == AndOperands(left) + AndOperands(right)
    ensures |Conjoin(left, right).Operands()| >= 2
    ensures Disjoin(left, right).Or? && Disjoin(left, right).Operands() == OrOperands(left) + OrOperands(right)
    ensures |Disjoin(left, right).Operands()| >= 2
  {
    var es := AndOperands(left) + AndOperands(right);
    assert [es[0]] + es[1..] == es;
    var fs := OrOperands(left) + OrOperands(right);
    assert [fs[0]] + fs[1..] == fs;
  }

  // ---------------------------------------------------------------------------------
  // Variable definitions

  /** DEFINE without a name is an error at DEFINE; a name without `(` is an error at the name. */
  lemma VariableHeader(table: MembershipTable, num: NumberParser, tokens: seq<Token>, c: nat)
    requires c < |tokens|
    ensures !(c + 1 < |tokens| && tokens[c + 1].kind == VARIABLE) ==>
      VariableStatement(table, num, tokens, c) == Statement(None, Some(ParseError(MissingDefinedName, tokens[c].pos)), c + 1)
    ensures c + 1 < |tokens| && tokens[c + 1].kind == VARIABLE && !(c + 2 < |tokens| && tokens[c + 2].kind == LPAREN) ==>
      VariableStatement(table, num, tokens, c) == Statement(None, Some(ParseError(OpenAfterName, tokens[c + 1].pos)), c + 2)
  {
  }

  /** With `DEFINE name (` in place, the statement is what the term loop and its `) ;` make of it. */
  lemma VariableBody(table: MembershipTable, num: NumberParser, tokens: seq<Token>, c: nat)
    requires c + 3 <= |tokens| && tokens[c + 1].kind == VARIABLE && tokens[c + 2].kind == LPAREN
    ensures VariableStatement(table, num, tokens, c) ==
      VariableEnd(tokens, tokens[c + 1].value, TermList(table, num, tokens, c + 3))
  {
  }

  /**
   * After the term loop a variable definition yields a variable exactly on `) ;` with distinct
   * term names: NewVariable of the name and the terms in source order, with the cursor past the
   * `;`. On `) ;` with a repeated term name it aborts with ErrTermAlreadyExists.
   */
  lemma VariableEndWellFormed(tokens: seq<Token>, name: string, terms: Parse<seq<Term>>)
    requires (terms.Done? || terms.Error?) && 0 < terms.cursor <= |tokens|
    ensures var r := VariableEnd(tokens, name, terms); var k := terms.cursor;
      var closed := terms.Done? && k + 2 <= |tokens| && tokens[k].kind == RPAREN && tokens[k + 1].kind == SEMI;
      (r.Statement? && r.item.Some? <==> closed && DistinctNames(terms.value)) &&
      (r.Panic? <==> closed && !DistinctNames(terms.value)) &&
      (r.Panic? ==> r.cause == TermAlreadyExists) &&
      (r.Statement? && r.item.Some? ==> r == Statement(Some(BuildVariable(name, terms.value).value), None, k + 2))
  {
  }

  /** Inside a definition every entry starts with TERM: anything else before `)` is an error at that token. */
  lemma TermListNeedsTerm(table: MembershipTable, num: NumberParser, tokens: seq<Token>, c: nat)
    requires c < |tokens| && tokens[c].kind != RPAREN && tokens[c].kind != TERM
    ensures TermList(table, num, tokens, c) == Error(ParseError(MissingTerm, tokens[c].pos), c)
  {
  }

  /**
   * A term definition at TERM succeeds exactly when a name follows and then a membership
   * function parses; it gives the term of that name and membership, with the cursor past the
   * function. A missing name is an error at TERM, and the end of the tokens right after the
   * name is a missing function type at the name.
   */
  lemma TermDefinitionExact(table: MembershipTable, num: NumberParser, tokens: seq<Token>, c: nat)
    requires c < |tokens|
    ensures var d := TermDefinition(table, num, tokens, c);
      d.Done? <==>
        c + 2 < |tokens| && tokens[c + 1].kind == VARIABLE && MembershipFunction(table, num, tokens, c + 2).Done?
    ensures var d := TermDefinition(table, num, tokens, c);
      d.Done? ==>
        var m := MembershipFunction(table, num, tokens, c + 2);
        d == Done(Term(tokens[c + 1].value, m.value), m.cursor)
    ensures !(c + 1 < |tokens| && tokens[c + 1].kind == VARIABLE) ==>
      TermDefinition(table, num, tokens, c) == Error(ParseError(MissingTermName, tokens[c].pos), c + 1)
    ensures c + 2 == |tokens| && tokens[c + 1].kind == VARIABLE ==>
      TermDefinition(table, num, tokens, c) == Error(ParseError(MissingFunction, tokens[c + 1].pos), c + 2)
    ensures c + 2 < |tokens| && tokens[c + 1].kind == VARIABLE && MembershipFunction(table, num, tokens, c + 2).Error? ==>
      TermDefinition(table, num, tokens, c) == Error(MembershipFunction(table, num, tokens, c + 2).err, c + 2)
  {
  }

  // ---------------------------------------------------------------------------------
  // The statement loop

  /** The statement loop of parse, started at `s`, reaches a statement at `c`. */
  predicate Visits(table: MembershipTable, num: NumberParser, tokens: seq<Token>, s: nat, c: nat)
    requires s <= |tokens|
    decreases |tokens| - s
  {
    s == c ||
    (s < |tokens| && StatementAt(table, num, tokens, s).Ok? &&
     Visits(table, num, tokens, StatementAt(table, num, tokens, s).value.1, c))
  }

  /** A statement that the loop reaches and that reports an error keeps the loop from succeeding. */
  lemma {:induction false} VisitedError(table: MembershipTable, num: NumberParser, tokens: seq<Token>, s: nat, c: nat)
    requires s <= |tokens| && c < |tokens| && Visits(table, num, tokens, s, c)
    requires StatementAt(table, num, tokens, c).Ok? && StatementAt(table, num, tokens, c).value.0.errors != []
    ensures Statements(table, num, tokens, s).Ok? ==> Statements(table, num, tokens, s).value.errors != []
    decreases |tokens| - s
  {
    if s != c {
      VisitedError(table, num, tokens, StatementAt(table, num, tokens, s).value.1, c);
    }
  }

  /** A statement that the loop reaches and that panics makes the whole loop fail with that panic. */
  lemma {:induction false} VisitedPanic(table: MembershipTable, num: NumberParser, tokens: seq<Token>, s: nat, c: nat)
    requires s <= |tokens| && c < |tokens| && Visits(table, num, tokens, s, c)
    requires StatementAt(table, num, tokens, c).Fail?
    ensures Statements(table, num, tokens, s) == Fail(StatementAt(table, num, tokens, c).error)
    decreases |tokens| - s
  {
    if s != c {
      VisitedPanic(table, num, tokens, StatementAt(table, num, tokens, s).value.1, c);
    }
  }

  /**
   * parse returns no rule and no variable as soon as one statement it reaches reports an
   * error, even a rule salvaged without its `;`.
   */
  lemma ErrorDiscardsAll(table: MembershipTable, num: NumberParser, tokens: seq<Token>, c: nat)
    requires c < |tokens| && Visits(table, num, tokens, 0, c)
    requires StatementAt(table, num, tokens, c).Ok? && StatementAt(table, num, tokens, c).value.0.errors != []
    ensures ParseFrom(table, num, tokens, 0).Fail?
  {
    VisitedError(table, num, tokens, 0, c);
  }

  /** A NewVariable panic in any statement parse reaches aborts the parse with that panic. */
  lemma PanicAborts(table: MembershipTable, num: NumberParser, tokens: seq<Token>, c: nat)
    requires c < |tokens| && Visits(table, num, tokens, 0, c)
    requires StatementAt(table, num, tokens, c).Fail?
    ensures ParseFrom(table, num, tokens, 0) == Fail(Panicked(StatementAt(table, num, tokens, c).error))
  {
    VisitedPanic(table, num, tokens, 0, c);
  }

  // ---------------------------------------------------------------------------------
  // An empty membership table

  /** With an empty membership table no term definition succeeds. */
  lemma EmptyTableNoTerm(num: NumberParser, tokens: seq<Token>, c: nat)
    requires c < |tokens|
    ensures !TermDefinition(map[], num, tokens, c).Done?
  {
    if c + 2 < |tokens| && tokens[c + 1].kind == VARIABLE {
      EmptyTableReadsNothing(Guarded, num, tokens, c + 2);
    }
  }

  /** With an empty membership table a term loop succeeds only when it holds no term. */
  lemma EmptyTableTermList(num: NumberParser, tokens: seq<Token>, c: nat)
    requires c <= |tokens|
    ensures TermList(map[], num, tokens, c).Done? ==> TermList(map[], num, tokens, c).value == []
  {
    if c < |tokens| && tokens[c].kind == TERM {
      EmptyTableNoTerm(num, tokens, c);
    }
  }

  /** With an empty membership table every variable a statement yields has no term. */
  lemma EmptyTableStatement(num: NumberParser, tokens: seq<Token>, c: nat)
    requires c < |tokens| && StatementAt(map[], num, tokens, c).Ok?
    ensures forall v :: v in StatementAt(map[], num, tokens, c).value.0.variables ==> v.terms == map[]
  {
    if tokens[c].kind == DEFINE && c + 3 <= |tokens| {
      EmptyTableTermList(num, tokens, c + 3);
    }
  }

  /**
   * With an empty membership table, every variable a successful statement loop collects has no
   * term: each TERM is rejected as an unknown membership function type.
   */
  lemma {:induction false} EmptyTableTermless(num: NumberParser, tokens: seq<Token>, s: nat)
    requires s <= |tokens|
    ensures Statements(map[], num, tokens, s).Ok? ==>
      forall v :: v in Statements(map[], num, tokens, s).value.variables ==> v.terms == map[]
    decreases |tokens| - s
  {
    if s < |tokens| && StatementAt(map[], num, tokens, s).Ok? {
      EmptyTableStatement(num, tokens, s);
      EmptyTableTermless(num, tokens, StatementAt(map[], num, tokens, s).value.1);
    }
  }
}
