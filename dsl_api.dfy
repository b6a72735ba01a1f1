/**
 * The entry points of dsl/api.go: tokenize the text, run the parser from the first token, and
 * hand back the rules, the variables, or both. The parser of ParseRulesAndVariables is given
 * the built-in membership table (DefaultMemberships); the Go code as written gives it none,
 * which ParseRulesAndVariablesAsWritten keeps.
 */
module DslApi {
  import opened Wrappers
  import opened FuzzyErrors
  import opened MembershipFunctions
  import opened Catalog
  import opened Inference
  import opened DslTokens
  import opened DslMemberships
  import opened DslParser
  import opened DslParserFacts

  /** What the parser makes of a text, with membership table `table`. */
  function ParseText(table: MembershipTable, num: NumberParser, text: string): Outcome<ParseResult, DslError> {
    ParseFrom(table, num, Tokens(text), 0)
  }

  /**
   * Why ParseRulesOrPanic or ParseVariablesOrPanic panics: the syntax errors of a failed parse,
   * under its heading, or a panic of NewVariable inside the parse, which passes through as it is.
   */
  datatype ApiPanic =
    | FailedToParseRules(errors: seq<ParseError>)
    | FailedToParseVariables(errors: seq<ParseError>)
    | Propagated(cause: FuzzyError)

  /** ParseRulesAndVariables: the tokens of the text, parsed by a fresh parser from its first token. */
  method ParseRulesAndVariables(text: string, num: NumberParser) returns (r: Outcome<ParseResult, DslError>)
    ensures r == ParseText(DefaultMemberships, num, text)
  {
    var tokens := Tokenize(text);
    var parser := new Parser(tokens, DefaultMemberships, num);
    r := parser.Parse();
  }

  /** ParseRulesAndVariables as written: the parser is built without a membership table. */
  method ParseRulesAndVariablesAsWritten(text: string, num: NumberParser) returns (r: Outcome<ParseResult, DslError>)
    ensures r == ParseText(map[], num, text)
  {
    var tokens := Tokenize(text);
    var parser := new Parser(tokens, map[], num);
    r := parser.Parse();
  }

  /** ParseRules: the rules of a successful parse, else its error. */
  method ParseRules(text: string, num: NumberParser) returns (r: Outcome<seq<RuleData>, DslError>)
    ensures var p := ParseText(DefaultMemberships, num, text);
      (r.Ok? <==> p.Ok?) && (r.Ok? ==> r.value == p.value.rules) && (r.Fail? ==> r.error == p.error)
  {
    var result := ParseRulesAndVariables(text, num);
    if result.Fail? {
      return Fail(result.error);
    }
    r := Ok(result.value.rules);
  }

  /** ParseVariables: the variables of a successful parse, else its error. */
  method ParseVariables(text: string, num: NumberParser) returns (r: Outcome<seq<Variable>, DslError>)
    ensures var p := ParseText(DefaultMemberships, num, text);
      (r.Ok? <==> p.Ok?) && (r.Ok? ==> r.value == p.value.variables) && (r.Fail? ==> r.error == p.error)
  {
    var result := ParseRulesAndVariables(text, num);
    if result.Fail? {
      return Fail(result.error);
    }
    r := Ok(result.value.variables);
  }

  /**
   * ParseRulesOrPanic: the rules, or a panic "failed to parse rules" carrying the syntax errors;
   * a NewVariable panic inside the parse never reaches that wrapper and passes through.
   */
  method ParseRulesOrPanic(text: string, num: NumberParser) returns (r: Outcome<seq<RuleData>, ApiPanic>)
    ensures var p := ParseText(DefaultMemberships, num, text);
      (r.Ok? <==> p.Ok?) && (r.Ok? ==> r.value == p.value.rules) &&
      (r.Fail? && p.error.SyntaxErrors? ==> r.error == FailedToParseRules(p.error.errors)) &&
      (r.Fail? && p.error.Panicked? ==> r.error == Propagated(p.error.cause))
  {
    var rules := ParseRules(text, num);
    if rules.Fail? {
      if rules.error.Panicked? {
        return Fail(Propagated(rules.error.cause));
      }
      return Fail(FailedToParseRules(rules.error.errors));
    }
    r := Ok(rules.value);
  }

  /**
   * ParseVariablesOrPanic: the variables, or a panic "failed to parse variables" carrying the
   * syntax errors; a NewVariable panic inside the parse passes through.
   */
  method ParseVariablesOrPanic(text: string, num: NumberParser) returns (r: Outcome<seq<Variable>, ApiPanic>)
    ensures var p := ParseText(DefaultMemberships, num, text);
      (r.Ok? <==> p.Ok?) && (r.Ok? ==> r.value == p.value.variables) &&
      (r.Fail? && p.error.SyntaxErrors? ==> r.error == FailedToParseVariables(p.error.errors)) &&
      (r.Fail? && p.error.Panicked? ==> r.error == Propagated(p.error.cause))
  {
    var variables := ParseVariables(text, num);
    if variables.Fail? {
      if variables.error.Panicked? {
        return Fail(Propagated(variables.error.cause));
      }
      return Fail(FailedToParseVariables(variables.error.errors));
    }
    r := Ok(variables.value);
  }

  /**
   * Built without a membership table, the parser never yields a variable with a term: every
   * TERM is an unknown membership function type, so a successful parse defines termless
   * variables only.
   */
  lemma AsWrittenTermless(num: NumberParser, text: string)
    ensures var p := ParseText(map[], num, text);
      p.Ok? ==> forall v :: v in p.value.variables ==> v.terms == map[]
  {
    EmptyTableTermless(num, Tokens(text), 0);
  }

  /** The tokens of `DEFINE t ( TERM low LINEAR ( 0 , 10 ) ) ;`, whatever the names and numerals. */
  predicate OneLinearTerm(tokens: seq<Token>) {
    |tokens| == 13 &&
    tokens[0].kind == DEFINE && tokens[1].kind == VARIABLE && tokens[2].kind == LPAREN &&
    tokens[3].kind == TERM && tokens[4].kind == VARIABLE && tokens[5].kind == LINEAR &&
    tokens[6].kind == LPAREN && tokens[7].kind == VARIABLE && tokens[8].kind == COMMA &&
    tokens[9].kind == VARIABLE && tokens[10].kind == RPAREN && tokens[11].kind == RPAREN &&
    tokens[12].kind == SEMI
  }

  /** With the built-in table, the one-term definition gives its variable and nothing else. */
  lemma OneLinearTermDefault(num: NumberParser, tokens: seq<Token>)
    requires OneLinearTerm(tokens)
    requires num(tokens[7].value) == Some(0.0) && num(tokens[9].value) == Some(10.0)
    ensures BuildVariable(tokens[1].value, [Term(tokens[4].value, Linear(0.0, 10.0))]).Ok?
    ensures ParseFrom(DefaultMemberships, num, tokens, 0) ==
      Ok(ParseResult([], [BuildVariable(tokens[1].value, [Term(tokens[4].value, Linear(0.0, 10.0))]).value]))
  {
    var table := DefaultMemberships;
    var term := Term(tokens[4].value, Linear(0.0, 10.0));
    assert DistinctNames([term]);
    var v := BuildVariable(tokens[1].value, [term]).value;
    OneLinearTermList(num, tokens);
    assert StatementAt(table, num, tokens, 0) == Ok((Collected([], [v], []), 13));
    assert Statements(table, num, tokens, 13) == Ok(Collected([], [], []));
    var done := Collected([], [], []);
    assert Append(Collected([], [v], []), done) == Collected([], [v], []);
    assert Statements(table, num, tokens, 0) == Gathered(Collected([], [v], []), Statements(table, num, tokens, 13));
  }

  /** With the built-in table, the term loop of the one-term definition reads its one LINEAR term. */
  lemma OneLinearTermList(num: NumberParser, tokens: seq<Token>)
    requires OneLinearTerm(tokens)
    requires num(tokens[7].value) == Some(0.0) && num(tokens[9].value) == Some(10.0)
    ensures TermList(DefaultMemberships, num, tokens, 3) == Done([Term(tokens[4].value, Linear(0.0, 10.0))], 11)
  {
    var table := DefaultMemberships;
    var term := Term(tokens[4].value, Linear(0.0, 10.0));
    LinearExact(num, tokens, 6);
    assert Dispatch(Guarded, table, num, tokens, 5) == Done(Linear(0.0, 10.0), 11);
    assert TermDefinition(table, num, tokens, 3) == Done(term, 11);
    assert TermList(table, num, tokens, 11) == Done([], 11);
    assert [term] + [] == [term];
  }

  /** Without a table, the same definition is rejected at LINEAR, which then starts a bad rule. */
  lemma OneLinearTermEmpty(num: NumberParser, tokens: seq<Token>)
    requires OneLinearTerm(tokens)
    ensures ParseFrom(map[], num, tokens, 0) == Fail(SyntaxErrors([
      ParseError(UnknownType(tokens[5].value), tokens[5].pos),
      ParseError(RuleStart(tokens[5].value), tokens[5].pos)]))
  {
    var e1 := ParseError(UnknownType(tokens[5].value), tokens[5].pos);
    var e2 := ParseError(RuleStart(tokens[5].value), tokens[5].pos);
    assert TermDefinition(map[], num, tokens, 3) == Error(e1, 5);
    assert StatementAt(map[], num, tokens, 0) == Ok((Collected([], [], [e1]), 5));
    SkipToSemicolon(tokens);
    assert StatementAt(map[], num, tokens, 5) == Ok((Collected([], [], [e2]), 13));
    var done := Collected([], [], []);
    assert Statements(map[], num, tokens, 13) == Ok(done);
    assert Append(Collected([], [], [e2]), done) == Collected([], [], [e2]);
    assert Statements(map[], num, tokens, 5) == Ok(Collected([], [], [e2]));
    assert Append(Collected([], [], [e1]), Collected([], [], [e2])) == Collected([], [], [e1, e2]);
    assert Statements(map[], num, tokens, 0) == Gathered(Collected([], [], [e1]), Statements(map[], num, tokens, 5));
  }

  /** From LINEAR, the recovery of a bad statement skips to the closing `;`. */
  lemma SkipToSemicolon(tokens: seq<Token>)
    requires OneLinearTerm(tokens)
    ensures SkipTo(tokens, 5, SEMI) == 12
  {
    assert SkipTo(tokens, 12, SEMI) == 12;
    assert SkipTo(tokens, 10, SEMI) == 12;
    assert SkipTo(tokens, 8, SEMI) == 12;
    assert SkipTo(tokens, 6, SEMI) == 12;
  }

  /**
   * The definition of dsl/dsl_variables_test.go, cut to one LINEAR term: ParseVariables gives
   * the variable, while the Go entry point as written reports two syntax errors.
   */
  lemma OneLinearTermText(num: NumberParser, text: string)
    requires OneLinearTerm(Tokens(text))
    requires num(Tokens(text)[7].value) == Some(0.0) && num(Tokens(text)[9].value) == Some(10.0)
    ensures var ts := Tokens(text);
      ParseText(DefaultMemberships, num, text) ==
        Ok(ParseResult([], [BuildVariable(ts[1].value, [Term(ts[4].value, Linear(0.0, 10.0))]).value])) &&
      ParseText(map[], num, text) == Fail(SyntaxErrors([
        ParseError(UnknownType(ts[5].value), ts[5].pos), ParseError(RuleStart(ts[5].value), ts[5].pos)]))
  {
    OneLinearTermDefault(num, Tokens(text));
    OneLinearTermEmpty(num, Tokens(text));
  }
}
