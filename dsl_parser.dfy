/**
 * The recursive-descent parser of the rule language (dsl/expressions.go, dsl/variables.go,
 * dsl/parser.go). The functions say what each parsing step reads from a cursor into the
 * token list; the Parser class walks the same steps by advancing its `current` field, and
 * each of its methods is proved to equal the function of the same step.
 */
module DslParser {
  import opened Wrappers
  import opened FuzzyErrors
  import opened MembershipFunctions
  import opened Catalog
  import opened Expressions
  import opened Inference
  import opened DslTokens
  import opened DslMemberships

  /** The position parseRule and parseExpression report: the current token, else the last one. */
  function ErrorPos(tokens: seq<Token>, c: nat): Position {
    if c < |tokens| then tokens[c].pos
    else if c > 0 && c - 1 < |tokens| then tokens[c - 1].pos
    else Position(1, 1)
  }

  /** The first index from `c` on holding a token of kind `k`, or the end. */
  function SkipTo(tokens: seq<Token>, c: nat, k: Kind): (j: nat)
    requires c <= |tokens|
    ensures c <= j <= |tokens|
    ensures j < |tokens| ==> tokens[j].kind == k
    decreases |tokens| - c
  {
    if c == |tokens| || tokens[c].kind == k then c else SkipTo(tokens, c + 1, k)
  }

  // ---------------------------------------------------------------------------------
  // Expressions

  /** parseIsExpression: `variable IS term`. */
  function IsExpression(tokens: seq<Token>, c: nat): (r: Parse<(string, string)>)
    requires c <= |tokens|
    ensures !r.Crash? && c <= r.cursor <= |tokens|
    ensures r.Done? ==> r.cursor == c + 3
  {
    if !(c < |tokens| && tokens[c].kind == VARIABLE) then
      Error(ParseError(MissingVariableName, ErrorPos(tokens, c)), c)
    else if !(c + 1 < |tokens| && tokens[c + 1].kind == IS) then
      var v := tokens[c];
      Error(ParseError(MissingIs, Position(v.pos.line, v.pos.column + |v.value| + 1)), c + 1)
    else if !(c + 2 < |tokens| && tokens[c + 2].kind == VARIABLE) then
      Error(ParseError(MissingTermAfterIs, ErrorPos(tokens, c + 2)), c + 2)
    else
      Done((tokens[c].value, tokens[c + 2].value), c + 3)
  }

  /** parseSimpleExpression: the IS expression as an Is node. */
  function SimpleExpression(tokens: seq<Token>, c: nat): (r: Parse<Expr>)
    requires c <= |tokens|
    ensures !r.Crash? && c <= r.cursor <= |tokens|
    ensures r.Done? ==> r.cursor == c + 3
  {
    var p :- IsExpression(tokens, c);
    Done(Is(p.value.0, p.value.1), p.cursor)
  }

  /** What an operand contributes to a flattened AND: an AND's own operands, else itself. */
  function AndOperands(e: Expr): (es: seq<Expr>)
    ensures |es| >= 1
  {
    if e.And? then e.Operands() else [e]
  }

  /** What an operand contributes to a flattened OR: an OR's own operands, else itself. */
  function OrOperands(e: Expr): (es: seq<Expr>)
    ensures |es| >= 1
  {
    if e.Or? then e.Operands() else [e]
  }

  /** The AND node parseLogicalCombination builds from its two sides. */
  function Conjoin(left: Expr, right: Expr): Expr {
    var es := AndOperands(left) + AndOperands(right);
    And(es[0], es[1..])
  }

  /** The OR node parseLogicalCombination builds from its two sides. */
  function Disjoin(left: Expr, right: Expr): Expr {
    var es := OrOperands(left) + OrOperands(right);
    Or(es[0], es[1..])
  }

  /** parseExpression: NOT, a parenthesised expression, or an IS expression, then AND/OR. */
  function Expression(tokens: seq<Token>, c: nat): (r: Parse<Expr>)
    requires c <= |tokens|
    ensures !r.Crash? && c <= r.cursor <= |tokens|
    ensures r.Done? ==> c < r.cursor
    decreases |tokens| - c, 1
  {
    if c < |tokens| && tokens[c].kind == NOT then
      Negation(tokens, c + 1)
    else if c < |tokens| && tokens[c].kind == LPAREN then
      var inner :- Closed(tokens, c + 1);
      Combination(tokens, inner.cursor, inner.value)
    else
      var e :- SimpleExpression(tokens, c);
      Combination(tokens, e.cursor, e.value)
  }

  /** The part of parseExpression after NOT: `( e )` or an IS expression or an expression, then AND/OR. */
  function Negation(tokens: seq<Token>, c: nat): (r: Parse<Expr>)
    requires c <= |tokens|
    ensures !r.Crash? && c <= r.cursor <= |tokens|
    ensures r.Done? ==> c < r.cursor
    decreases |tokens| - c, 2
  {
    if c < |tokens| && tokens[c].kind == LPAREN then
      var inner :- Closed(tokens, c + 1);
      Combination(tokens, inner.cursor, Not(inner.value))
    else
      var inner :-
        if c < |tokens| && tokens[c].kind == VARIABLE then SimpleExpression(tokens, c)
        else Expression(tokens, c);
      Combination(tokens, inner.cursor, Not(inner.value))
  }

  /** The part of parseExpression after `(`: an expression and its `)`, with the cursor past `)`. */
  function Closed(tokens: seq<Token>, c: nat): (r: Parse<Expr>)
    requires c <= |tokens|
    ensures !r.Crash? && c <= r.cursor <= |tokens|
    ensures r.Done? ==> c < r.cursor
    decreases |tokens| - c, 2
  {
    var inner :- Expression(tokens, c);
    if !(inner.cursor < |tokens| && tokens[inner.cursor].kind == RPAREN) then
      Error(ParseError(MissingClosingParen, ErrorPos(tokens, inner.cursor)), inner.cursor)
    else
      Done(inner.value, inner.cursor + 1)
  }

  /** parseLogicalCombination: `left`, or `left AND e` / `left OR e` for a whole expression `e`. */
  function Combination(tokens: seq<Token>, c: nat, left: Expr): (r: Parse<Expr>)
    requires c <= |tokens|
    ensures !r.Crash? && c <= r.cursor <= |tokens|
    decreases |tokens| - c, 0
  {
    if c < |tokens| && tokens[c].kind == AND then
      var right :- Expression(tokens, c + 1);
      Done(Conjoin(left, right.value), right.cursor)
    else if c < |tokens| && tokens[c].kind == OR then
      var right :- Expression(tokens, c + 1);
      Done(Disjoin(left, right.value), right.cursor)
    else
      Done(left, c)
  }

  // ---------------------------------------------------------------------------------
  // Statements

  /**
   * What one statement yields: possibly an item and possibly an error, with the cursor after
   * it; Panic is NewVariable aborting on a duplicate term name.
   */
  datatype Statement<+T> = Statement(item: Option<T>, error: Option<ParseError>, cursor: nat) | Panic(cause: FuzzyError)

  /** parseRule: `IF premise THEN variable IS term ;`, with its recovery after an error. */
  function RuleStatement(tokens: seq<Token>, c: nat): (r: Statement<RuleData>)
    requires c <= |tokens|
    ensures r.Statement? && c <= r.cursor <= |tokens|
    ensures c < |tokens| ==> c < r.cursor
  {
    if c == |tokens| then Statement(None, None, c)
    else if tokens[c].kind != IF then
      var j := SkipTo(tokens, c, SEMI);
      Statement(None, Some(ParseError(RuleStart(tokens[c].value), tokens[c].pos)),
                if j < |tokens| then j + 1 else j)
    else
      RuleAfterIf(tokens, c + 1)
  }

  /** The rest of a rule once its IF is consumed: the premise, then THEN. */
  function RuleAfterIf(tokens: seq<Token>, c: nat): (r: Statement<RuleData>)
    requires 0 < c <= |tokens|
    ensures r.Statement? && c <= r.cursor <= |tokens|
  {
    var premise := Expression(tokens, c);
    if premise.Error? then Statement(None, Some(premise.err), premise.cursor)
    else if !(premise.cursor < |tokens| && tokens[premise.cursor].kind == THEN) then
      Statement(None, Some(ParseError(MissingThen, ErrorPos(tokens, premise.cursor))), premise.cursor)
    else
      RuleAfterThen(tokens, premise.value, premise.cursor + 1)
  }

  /** The rest of a rule once its THEN is consumed: the conclusion, then the semicolon. */
  function RuleAfterThen(tokens: seq<Token>, premise: Expr, c: nat): (r: Statement<RuleData>)
    requires 0 < c <= |tokens|
    ensures r.Statement? && c <= r.cursor <= |tokens|
  {
    var conclusion := IsExpression(tokens, c);
    if conclusion.Error? then Statement(None, Some(conclusion.err), conclusion.cursor)
    else
      var k := conclusion.cursor;
      var rule := RuleData(premise, Is(conclusion.value.0, conclusion.value.1));
      if !(k < |tokens| && tokens[k].kind == SEMI) then
        Statement(Some(rule), Some(ParseError(MissingSemicolon, ErrorPos(tokens, k))), SkipTo(tokens, k, IF))
      else
        Statement(Some(rule), None, k + 1)
  }

  /** parseMembershipFunction: on an error the cursor stays at the function keyword. */
  function MembershipFunction(table: MembershipTable, num: NumberParser, tokens: seq<Token>, c: nat): (r: Parse<Membership>)
    requires 1 <= c <= |tokens|
    ensures !r.Crash? && c <= r.cursor <= |tokens|
    ensures r.Done? ==> c < r.cursor
    ensures r.Error? ==> r.cursor == c
  {
    if c == |tokens| then Error(ParseError(MissingFunction, tokens[c - 1].pos), c)
    else
      var m := Dispatch(Guarded, table, num, tokens, c);
      if m.Error? then Error(m.err, c) else m
  }

  /** parseTermDefinition: `TERM name` and one membership function. */
  function TermDefinition(table: MembershipTable, num: NumberParser, tokens: seq<Token>, c: nat): (r: Parse<Term>)
    requires c < |tokens|
    ensures !r.Crash? && c < r.cursor <= |tokens|
  {
    if !(c + 1 < |tokens| && tokens[c + 1].kind == VARIABLE) then
      Error(ParseError(MissingTermName, tokens[c].pos), c + 1)
    else if c + 2 >= |tokens| then
      Error(ParseError(MissingFunction, tokens[c + 1].pos), c + 2)
    else
      var m :- MembershipFunction(table, num, tokens, c + 2);
      Done(Term(tokens[c + 1].value, m.value), m.cursor)
  }

  /** The term loop of parseVariableDefinition: term definitions, each optionally followed by `,`. */
  function TermList(table: MembershipTable, num: NumberParser, tokens: seq<Token>, c: nat): (r: Parse<seq<Term>>)
    requires c <= |tokens|
    ensures !r.Crash? && c <= r.cursor <= |tokens|
    ensures r.Done? ==> r.cursor == |tokens| || tokens[r.cursor].kind == RPAREN
    decreases |tokens| - c
  {
    if c == |tokens| || tokens[c].kind == RPAREN then Done([], c)
    else if tokens[c].kind != TERM then
      Error(ParseError(MissingTerm, tokens[c].pos), c)
    else
      var t :- TermDefinition(table, num, tokens, c);
      var next := if t.cursor < |tokens| && tokens[t.cursor].kind == COMMA then t.cursor + 1 else t.cursor;
      var rest :- TermList(table, num, tokens, next);
      Done([t.value] + rest.value, rest.cursor)
  }

  /** parseVariableDefinition: `DEFINE name ( terms ) ;`, then NewVariable. */
  function VariableStatement(table: MembershipTable, num: NumberParser, tokens: seq<Token>, c: nat): (r: Statement<Variable>)
    requires c < |tokens|
    ensures r.Statement? ==> c < r.cursor <= |tokens|
    ensures r.Statement? ==> (r.item.Some? <==> r.error.None?)
  {
    if !(c + 1 < |tokens| && tokens[c + 1].kind == VARIABLE) then
      Statement(None, Some(ParseError(MissingDefinedName, tokens[c].pos)), c + 1)
    else if !(c + 2 < |tokens| && tokens[c + 2].kind == LPAREN) then
      Statement(None, Some(ParseError(OpenAfterName, tokens[c + 1].pos)), c + 2)
    else
      VariableAfterOpen(table, num, tokens, tokens[c + 1].value, c + 3)
  }

  /** parseVariableDefinition once `DEFINE name (` is consumed: the term loop, then its end. */
  function VariableAfterOpen(table: MembershipTable, num: NumberParser, tokens: seq<Token>, name: string, c: nat): (r: Statement<Variable>)
    requires 0 < c <= |tokens|
    ensures r.Statement? ==> c <= r.cursor <= |tokens|
    ensures r.Statement? ==> (r.item.Some? <==> r.error.None?)
  {
    VariableEnd(tokens, name, TermList(table, num, tokens, c))
  }

  /** parseVariableDefinition after the term loop: the term loop's error, or `) ;` then NewVariable. */
  function VariableEnd(tokens: seq<Token>, name: string, terms: Parse<seq<Term>>): (r: Statement<Variable>)
    requires terms.Done? || terms.Error?
    requires 0 < terms.cursor <= |tokens|
    ensures r.Statement? ==> terms.cursor <= r.cursor <= |tokens|
    ensures r.Statement? ==> (r.item.Some? <==> r.error.None?)
  {
    if terms.Error? then Statement(None, Some(terms.err), terms.cursor)
    else
      var k := terms.cursor;
      if !(k < |tokens| && tokens[k].kind == RPAREN) then
        Statement(None, Some(ParseError(CloseDefinition, tokens[k - 1].pos)), k)
      else if !(k + 1 < |tokens| && tokens[k + 1].kind == SEMI) then
        Statement(None, Some(ParseError(SemicolonAfterDefinition, tokens[k].pos)), k + 1)
      else
        match BuildVariable(name, terms.value)
        case Ok(v) => Statement(Some(v), None, k + 2)
        case Fail(f) => Panic(f)
  }

  /** The item of an optional value, as a list of zero or one. */
  function Items<T>(o: Option<T>): (s: seq<T>)
    ensures o.Some? ==> s == [o.value]
    ensures o.None? ==> s == []
  {
    if o.Some? then [o.value] else []
  }

  /** What the statement loop collects: rules, variables and errors, each in source order. */
  datatype Collected = Collected(rules: seq<RuleData>, variables: seq<Variable>, errors: seq<ParseError>)

  /** Everything `a` collected followed by everything `b` collected. */
  function Append(a: Collected, b: Collected): Collected {
    Collected(a.rules + b.rules, a.variables + b.variables, a.errors + b.errors)
  }

  /** What the statement loop has collected so far followed by what the rest of it collects. */
  function Gathered(acc: Collected, rest: Outcome<Collected, FuzzyError>): Outcome<Collected, FuzzyError> {
    if rest.Ok? then Ok(Append(acc, rest.value)) else rest
  }

  /**
   * One iteration of the statement loop: DEFINE starts a variable definition, anything else a
   * rule; what the statement contributes, and where the next one starts.
   */
  function StatementAt(table: MembershipTable, num: NumberParser, tokens: seq<Token>, c: nat): (r: Outcome<(Collected, nat), FuzzyError>)
    requires c < |tokens|
    ensures r.Ok? ==> c < r.value.1 <= |tokens|
  {
    if tokens[c].kind == DEFINE then
      match VariableStatement(table, num, tokens, c)
      case Panic(f) => Fail(f)
      case Statement(v, e, k) => Ok((Collected([], Items(v), Items(e)), k))
    else
      var s := RuleStatement(tokens, c);
      Ok((Collected(Items(s.item), [], Items(s.error)), s.cursor))
  }

  /** The statement loop of parse, from cursor `c` to the end of the tokens. */
  function Statements(table: MembershipTable, num: NumberParser, tokens: seq<Token>, c: nat): Outcome<Collected, FuzzyError>
    requires c <= |tokens|
    decreases |tokens| - c
  {
    if c == |tokens| then Ok(Collected([], [], []))
    else
      var s :- StatementAt(table, num, tokens, c);
      Gathered(s.0, Statements(table, num, tokens, s.1))
  }

  /** A successful parse: the rules and the variables, each in source order. */
  datatype ParseResult = ParseResult(rules: seq<RuleData>, variables: seq<Variable>)

  /** Why a parse failed: the syntax errors of all statements, or a NewVariable panic. */
  datatype DslError = SyntaxErrors(errors: seq<ParseError>) | Panicked(cause: FuzzyError)

  /** parse: every statement's error is collected, and any error discards all rules and variables. */
  function ParseFrom(table: MembershipTable, num: NumberParser, tokens: seq<Token>, c: nat): Outcome<ParseResult, DslError>
    requires c <= |tokens|
  {
    match Statements(table, num, tokens, c)
    case Fail(f) => Fail(Panicked(f))
    case Ok(col) =>
      if col.errors != [] then Fail(SyntaxErrors(col.errors)) else Ok(ParseResult(col.rules, col.variables))
  }

  /** The consumed part of a term list followed by the rest of it. */
  function Prefixed<T>(prefix: seq<T>, p: Parse<seq<T>>): Parse<seq<T>> {
    if p.Done? then Done(prefix + p.value, p.cursor) else p
  }

  // ---------------------------------------------------------------------------------
  // The parser

  /** Parser: the tokens, the cursor `current`, the membership table and the numeral parser. */
  class Parser {
    const tokens: seq<Token>
    var current: nat
    const memberships: MembershipTable
    const number: NumberParser

    /** The cursor never passes the end of the tokens. */
    predicate Valid()
      reads this
    {
      current <= |tokens|
    }

    constructor (tokens: seq<Token>, memberships: MembershipTable, number: NumberParser)
      ensures this.tokens == tokens && this.memberships == memberships && this.number == number
      ensures current == 0 && Valid()
    {
      this.tokens := tokens;
      this.memberships := memberships;
      this.number := number;
      current := 0;
    }

    method ParseIsExpression() returns (r: Parse<(string, string)>)
      requires Valid()
      modifies this
      ensures Valid() && r == IsExpression(tokens, old(current)) && current == r.cursor
    {
      if current >= |tokens| || tokens[current].kind != VARIABLE {
        return Error(ParseError(MissingVariableName, ErrorPos(tokens, current)), current);
      }
      var varToken := tokens[current];
      current := current + 1;
      if current >= |tokens| || tokens[current].kind != IS {
        var pos := Position(varToken.pos.line, varToken.pos.column + |varToken.value| + 1);
        return Error(ParseError(MissingIs, pos), current);
      }
      current := current + 1;
      if current >= |tokens| || tokens[current].kind != VARIABLE {
        return Error(ParseError(MissingTermAfterIs, ErrorPos(tokens, current)), current);
      }
      var term := tokens[current].value;
      current := current + 1;
      return Done((varToken.value, term), current);
    }

    method ParseSimpleExpression() returns (r: Parse<Expr>)
      requires Valid()
      modifies this
      ensures Valid() && r == SimpleExpression(tokens, old(current)) && current == r.cursor
    {
      var p := ParseIsExpression();
      if p.Error? {
        return Error(p.err, p.cursor);
      }
      return Done(Is(p.value.0, p.value.1), current);
    }

    method ParseExpression() returns (r: Parse<Expr>)
      requires Valid()
      modifies this
      ensures Valid() && r == Expression(tokens, old(current)) && current == r.cursor
      decreases |tokens| - current, 1
    {
      if current < |tokens| && tokens[current].kind == NOT {
        current := current + 1;
        r := ParseNegation();
        return;
      }
      if current < |tokens| && tokens[current].kind == LPAREN {
        current := current + 1;
        var inner := ParseClosed();
        if inner.Error? {
          return inner;
        }
        r := ParseLogicalCombination(inner.value);
        return;
      }
      var e := ParseSimpleExpression();
      if e.Error? {
        return e;
      }
      r := ParseLogicalCombination(e.value);
    }

    /** parseExpression after NOT. */
    method ParseNegation() returns (r: Parse<Expr>)
      requires Valid()
      modifies this
      ensures Valid() && r == Negation(tokens, old(current)) && current == r.cursor
      decreases |tokens| - current, 2
    {
      if current < |tokens| && tokens[current].kind == LPAREN {
        current := current + 1;
        var inner := ParseClosed();
        if inner.Error? {
          return inner;
        }
        r := ParseLogicalCombination(Not(inner.value));
        return;
      }
      var inner: Parse<Expr>;
      if current < |tokens| && tokens[current].kind == VARIABLE {
        inner := ParseSimpleExpression();
      } else {
        inner := ParseExpression();
      }
      if inner.Error? {
        return inner;
      }
      r := ParseLogicalCombination(Not(inner.value));
    }

    /** parseExpression after `(`: the inner expression, then `)`. */
    method ParseClosed() returns (r: Parse<Expr>)
      requires Valid()
      modifies this
      ensures Valid() && r == Closed(tokens, old(current)) && current == r.cursor
      decreases |tokens| - current, 2
    {
      var inner := ParseExpression();
      if inner.Error? {
        return inner;
      }
      if current >= |tokens| || tokens[current].kind != RPAREN {
        return Error(ParseError(MissingClosingParen, ErrorPos(tokens, current)), current);
      }
      current := current + 1;
      return Done(inner.value, current);
    }

    /** The AND branch builds its operand list case by case, as the slices are built. */
    method ParseLogicalCombination(left: Expr) returns (r: Parse<Expr>)
      requires Valid()
      modifies this
      ensures Valid() && r == Combination(tokens, old(current), left) && current == r.cursor
      decreases |tokens| - current, 0
    {
      if current < |tokens| {
        if tokens[current].kind == AND {
          current := current + 1;
          var right := ParseExpression();
          if right.Error? {
            return right;
          }
          var exprs: seq<Expr>;
          if left.And? {
            exprs := if right.value.And? then left.Operands() + right.value.Operands() else left.Operands() + [right.value];
          } else if right.value.And? {
            exprs := [left] + right.value.Operands();
          } else {
            exprs := [left, right.value];
          }
          return Done(And(exprs[0], exprs[1..]), current);
        } else if tokens[current].kind == OR {
          current := current + 1;
          var right := ParseExpression();
          if right.Error? {
            return right;
          }
          var exprs: seq<Expr>;
          if left.Or? {
            exprs := if right.value.Or? then left.Operands() + right.value.Operands() else left.Operands() + [right.value];
          } else if right.value.Or? {
            exprs := [left] + right.value.Operands();
          } else {
            exprs := [left, right.value];
          }
          return Done(Or(exprs[0], exprs[1..]), current);
        }
      }
      return Done(left, current);
    }

    /** The recovery loops of parseRule: advance to the next token of kind `k`, or to the end. */
    method SkipPast(k: Kind)
      requires Valid()
      modifies this
      ensures Valid() && current == SkipTo(tokens, old(current), k)
    {
      while current < |tokens| && tokens[current].kind != k
        invariant old(current) <= current <= |tokens|
        invariant SkipTo(tokens, old(current), k) == SkipTo(tokens, current, k)
        decreases |tokens| - current
      {
        current := current + 1;
      }
    }

    method ParseRule() returns (r: Statement<RuleData>)
      requires Valid()
      modifies this
      ensures Valid() && r == RuleStatement(tokens, old(current)) && current == r.cursor
    {
      if current >= |tokens| {
        return Statement(None, None, current);
      }
      if tokens[current].kind != IF {
        var tokenPos, errorToken := tokens[current].pos, tokens[current].value;
        SkipPast(SEMI);
        if current < |tokens| && tokens[current].kind == SEMI {
          current := current + 1;
        }
        return Statement(None, Some(ParseError(RuleStart(errorToken), tokenPos)), current);
      }
      current := current + 1;
      r := ParseRuleAfterIf();
    }

    method ParseRuleAfterIf() returns (r: Statement<RuleData>)
      requires Valid() && 0 < current
      modifies this
      ensures Valid() && r == RuleAfterIf(tokens, old(current)) && current == r.cursor
    {
      var premise := ParseExpression();
      if premise.Error? {
        return Statement(None, Some(premise.err), current);
      }
      if current >= |tokens| || tokens[current].kind != THEN {
        return Statement(None, Some(ParseError(MissingThen, ErrorPos(tokens, current))), current);
      }
      current := current + 1;
      r := ParseRuleAfterThen(premise.value);
    }

    method ParseRuleAfterThen(premise: Expr) returns (r: Statement<RuleData>)
      requires Valid() && 0 < current
      modifies this
      ensures Valid() && r == RuleAfterThen(tokens, premise, old(current)) && current == r.cursor
    {
      var conclusion := ParseIsExpression();
      if conclusion.Error? {
        return Statement(None, Some(conclusion.err), current);
      }
      var rule := RuleData(premise, Is(conclusion.value.0, conclusion.value.1));
      if current >= |tokens| || tokens[current].kind != SEMI {
        var pos := ErrorPos(tokens, current);
        SkipPast(IF);
        return Statement(Some(rule), Some(ParseError(MissingSemicolon, pos)), current);
      }
      current := current + 1;
      return Statement(Some(rule), None, current);
    }

    method ParseMembershipFunction() returns (r: Parse<Membership>)
      requires Valid() && 1 <= current
      modifies this
      ensures Valid() && r == MembershipFunction(memberships, number, tokens, old(current)) && current == r.cursor
    {
      if current >= |tokens| {
        return Error(ParseError(MissingFunction, tokens[current - 1].pos), current);
      }
      var m := Dispatch(Guarded, memberships, number, tokens, current);
      if m.Error? {
        return Error(m.err, current);
      }
      current := m.cursor;
      return m;
    }

    method ParseTermDefinition() returns (r: Parse<Term>)
      requires Valid() && current < |tokens|
      modifies this
      ensures Valid() && r == TermDefinition(memberships, number, tokens, old(current)) && current == r.cursor
    {
      var termToken := tokens[current];
      current := current + 1;
      if current >= |tokens| || tokens[current].kind != VARIABLE {
        return Error(ParseError(MissingTermName, termToken.pos), current);
      }
      var termName := tokens[current].value;
      current := current + 1;
      if current >= |tokens| {
        return Error(ParseError(MissingFunction, tokens[current - 1].pos), current);
      }
      var m := ParseMembershipFunction();
      if m.Error? {
        return Error(m.err, current);
      }
      return Done(Term(termName, m.value), current);
    }

    /** The term loop of parseVariableDefinition: terms until `)` or the end of the tokens. */
    method ParseTermList() returns (r: Parse<seq<Term>>)
      requires Valid()
      modifies this
      ensures Valid() && r == TermList(memberships, number, tokens, old(current)) && current == r.cursor
    {
      ghost var start := current;
      var terms: seq<Term> := [];
      ghost var all := TermList(memberships, number, tokens, start);
      assert all.Done? ==> [] + all.value == all.value;
      while current < |tokens| && tokens[current].kind != RPAREN
        invariant start <= current <= |tokens|
        invariant TermList(memberships, number, tokens, start) ==
          Prefixed(terms, TermList(memberships, number, tokens, current))
        decreases |tokens| - current
      {
        if tokens[current].kind != TERM {
          return Error(ParseError(MissingTerm, tokens[current].pos), current);
        }
        ghost var before := current;
        var term := ParseTermDefinition();
        if term.Error? {
          return Error(term.err, current);
        }
        if current < |tokens| && tokens[current].kind == COMMA {
          current := current + 1;
        }
        TermStep(memberships, number, tokens, start, before, current, terms, term.value);
        terms := terms + [term.value];
      }
      assert terms + [] == terms;
      return Done(terms, current);
    }

    method ParseVariableDefinition() returns (r: Statement<Variable>)
      requires Valid() && current < |tokens|
      modifies this
      ensures Valid() && r == VariableStatement(memberships, number, tokens, old(current))
      ensures r.Statement? ==> current == r.cursor
    {
      var defineToken := tokens[current];
      current := current + 1;
      if current >= |tokens| || tokens[current].kind != VARIABLE {
        return Statement(None, Some(ParseError(MissingDefinedName, defineToken.pos)), current);
      }
      var variableName := tokens[current].value;
      current := current + 1;
      if current >= |tokens| || tokens[current].kind != LPAREN {
        return Statement(None, Some(ParseError(OpenAfterName, tokens[current - 1].pos)), current);
      }
      current := current + 1;
      r := ParseVariableAfterOpen(variableName);
    }

    method ParseVariableAfterOpen(variableName: string) returns (r: Statement<Variable>)
      requires Valid() && 0 < current
      modifies this
      ensures Valid() && r == VariableAfterOpen(memberships, number, tokens, variableName, old(current))
      ensures r.Statement? ==> current == r.cursor
    {
      var termList := ParseTermList();
      r := FinishVariable(variableName, termList);
    }

    /** parseVariableDefinition after the term loop: `)`, `;` and NewVariable. */
    method FinishVariable(variableName: string, termList: Parse<seq<Term>>) returns (r: Statement<Variable>)
      requires Valid() && (termList.Done? || termList.Error?) && 0 < termList.cursor == current
      modifies this
      ensures Valid() && r == VariableEnd(tokens, variableName, termList)
      ensures r.Statement? ==> current == r.cursor
    {
      if termList.Error? {
        return Statement(None, Some(termList.err), current);
      }
      var terms := termList.value;
      if current >= |tokens| || tokens[current].kind != RPAREN {
        return Statement(None, Some(ParseError(CloseDefinition, tokens[current - 1].pos)), current);
      }
      current := current + 1;
      if current >= |tokens| || tokens[current].kind != SEMI {
        return Statement(None, Some(ParseError(SemicolonAfterDefinition, tokens[current - 1].pos)), current);
      }
      current := current + 1;
      var v := NewVariable(variableName, terms);
      match v
      case Ok(x) => return Statement(Some(x), None, current);
      case Fail(f) => return Panic(f);
    }

    /** One turn of parse's loop: a variable definition after DEFINE, a rule otherwise. */
    method ParseStatement() returns (r: Outcome<(Collected, nat), FuzzyError>)
      requires Valid() && current < |tokens|
      modifies this
      ensures Valid() && r == StatementAt(memberships, number, tokens, old(current))
      ensures r.Ok? ==> current == r.value.1
    {
      if tokens[current].kind == DEFINE {
        var s := ParseVariableDefinition();
        if s.Panic? {
          return Fail(s.cause);
        }
        return Ok((Collected([], Items(s.item), Items(s.error)), current));
      }
      var s := ParseRule();
      return Ok((Collected(Items(s.item), [], Items(s.error)), current));
    }

    /** parse: the statement loop, then all the collected errors or the rules and variables. */
    method Parse() returns (r: Outcome<ParseResult, DslError>)
      requires Valid()
      modifies this
      ensures r == ParseFrom(memberships, number, tokens, old(current))
      ensures !(r.Fail? && r.error.Panicked?) ==> current == |tokens|
    {
      var rules: seq<RuleData> := [];
      var variables: seq<Variable> := [];
      var errs: seq<ParseError> := [];
      ghost var start := current;
      ghost var all := Statements(memberships, number, tokens, start);
      assert all.Ok? ==> Append(Collected([], [], []), all.value) == all.value;
      while current < |tokens|
        invariant Valid() && start <= current
        invariant Statements(memberships, number, tokens, start) ==
          Gathered(Collected(rules, variables, errs), Statements(memberships, number, tokens, current))
        decreases |tokens| - current
      {
        ghost var before := current;
        ghost var acc := Collected(rules, variables, errs);
        var step := ParseStatement();
        if step.Fail? {
          return Fail(Panicked(step.error));
        }
        var (one, _) := step.value;
        rules, variables, errs := rules + one.rules, variables + one.variables, errs + one.errors;
        StatementsStep(memberships, number, tokens, start, before, acc);
        if current >= |tokens| {
          break;
        }
      }
      assert rules + [] == rules && variables + [] == variables && errs + [] == errs;
      assert Statements(memberships, number, tokens, start) == Ok(Collected(rules, variables, errs));
      if |errs| > 0 {
        return Fail(SyntaxErrors(errs));
      }
      return Ok(ParseResult(rules, variables));
    }
  }

  /** One term of the term loop: the consumed prefix grows by that term. */
  lemma TermStep(table: MembershipTable, num: NumberParser, tokens: seq<Token>, start: nat, before: nat, next: nat,
                 terms: seq<Term>, t: Term)
    requires start <= before < |tokens| && next <= |tokens| && tokens[before].kind == TERM
    requires TermList(table, num, tokens, start) == Prefixed(terms, TermList(table, num, tokens, before))
    requires var d := TermDefinition(table, num, tokens, before);
      d.Done? && d.value == t &&
      next == (if d.cursor < |tokens| && tokens[d.cursor].kind == COMMA then d.cursor + 1 else d.cursor)
    ensures TermList(table, num, tokens, start) == Prefixed(terms + [t], TermList(table, num, tokens, next))
  {
    TermListUnfold(table, num, tokens, before, next, t);
    PrefixedAssoc(terms, [t], TermList(table, num, tokens, next));
  }

  /** A term list that starts with a term definition: that term, then the list after it. */
  lemma TermListUnfold(table: MembershipTable, num: NumberParser, tokens: seq<Token>, before: nat, next: nat, t: Term)
    requires before < |tokens| && next <= |tokens| && tokens[before].kind == TERM
    requires var d := TermDefinition(table, num, tokens, before);
      d.Done? && d.value == t &&
      next == (if d.cursor < |tokens| && tokens[d.cursor].kind == COMMA then d.cursor + 1 else d.cursor)
    ensures TermList(table, num, tokens, before) == Prefixed([t], TermList(table, num, tokens, next))
  {
  }

  /** Prefixing by two parts in turn is prefixing by both at once. */
  lemma PrefixedAssoc<T>(a: seq<T>, b: seq<T>, p: Parse<seq<T>>)
    ensures Prefixed(a, Prefixed(b, p)) == Prefixed(a + b, p)
  {
    if p.Done? {
      assert (a + b) + p.value == a + (b + p.value);
    }
  }

  /** Collecting is associative: what was collected, this statement's part, then the rest. */
  lemma GatheredAppend(acc: Collected, one: Collected, rest: Outcome<Collected, FuzzyError>)
    ensures Gathered(acc, Gathered(one, rest)) == Gathered(Append(acc, one), rest)
  {
    if rest.Ok? {
      var r := rest.value;
      assert acc.rules + (one.rules + r.rules) == (acc.rules + one.rules) + r.rules;
      assert acc.variables + (one.variables + r.variables) == (acc.variables + one.variables) + r.variables;
      assert acc.errors + (one.errors + r.errors) == (acc.errors + one.errors) + r.errors;
    }
  }

  /** One iteration of the statement loop keeps the loop's account of what is collected. */
  lemma StatementsStep(table: MembershipTable, num: NumberParser, tokens: seq<Token>, start: nat, before: nat, acc: Collected)
    requires start <= before < |tokens|
    requires Statements(table, num, tokens, start) == Gathered(acc, Statements(table, num, tokens, before))
    requires StatementAt(table, num, tokens, before).Ok?
    ensures var s := StatementAt(table, num, tokens, before).value;
      Statements(table, num, tokens, start) == Gathered(Append(acc, s.0), Statements(table, num, tokens, s.1))
  {
    var s := StatementAt(table, num, tokens, before).value;
    GatheredAppend(acc, s.0, Statements(table, num, tokens, s.1));
  }
}
