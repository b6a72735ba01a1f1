# go-fuzzy in Dafny

A model of go-fuzzy, a fuzzy-logic inference library, and of its rule language.

The engine part:

- Membership functions are the shapes Constant, Linear/Step, Triangular, Trapezoid and Inverted, plus the pointwise Min and Max of a list. Each has a `Value` and a `Domain`.
- A variable indexes its terms by name and keeps universe bounds derived from their domains.
- Expressions (IS, AND, OR, NOT) are evaluated against a context that holds the variables and the crisp inputs.
- The context accumulates one result per (variable, term): the largest truth degree and the Max of the clipped memberships.
- The engine fires its rules in order and defuzzifies one variable.
- Results can be queried for their best term and their variable names.

The rule-language part (the `dsl` package):

- A comment stripper.
- A line/word lexer with case-insensitive keywords.
- A cursor-based recursive-descent parser for rules, expressions (AND/OR lists are flattened), variable and term definitions.
- A dispatch table for membership functions.
- A statement loop that collects the errors of every statement.
- The public entry points.

How the model follows the Go code:

- float64 is `real`. The few IEEE values the engine really produces are the datatype `Floats.Float`: the ±Inf seeds of an empty running minimum or maximum, and the NaN of their midpoint.
- Membership shapes and expressions are closed datatypes, and their values are functions.
- Loops that update state stay loops and are proved equal to those functions: the running minimum and maximum, membershipsDomain, NewVariable, NewContext, the AND/OR folds, Infer, Defuzzify, removeComments, tokenize, and the parser's recovery loops and statement loop.
- The objects the source updates in place are classes: `Contexts.Context` (its results map), `FuzzyRules.Rule` (Then), `Inference.Engine` (its setters) and `DslParser.Parser`.
- The parser's cursor is the `current` field of `DslParser.Parser`. Every parsing method ensures it returns exactly what a function of the token list and the old cursor returns, and leaves `current` where that function says. The properties of the language are lemmas about those functions, in `DslParserFacts`, `DslFlattening` and `DslApi`.
- Panics become values:
  - a duplicate term or variable name, and an empty And/Or, return `Fail(...)`;
  - in the parser, a NewVariable panic aborts the whole parse with `Panicked`;
  - the index-out-of-range read of the unguarded membership dispatcher is `Crash`. The parser itself reads memberships through the guarded dispatcher, which reports the missing keyword instead;
  - Infer on a rule whose Then was never called returns `Fail(NilConclusion)`, where the source dereferences a nil conclusion.

Modules, one per source file or concern:

| module | file | models |
|---|---|---|
| `Wrappers` | wrappers.dfy | Option and Outcome (value or error) |
| `FuzzyErrors` | errors.dfy | error.go sentinel errors |
| `Floats` | floats.dfy | math.Min, math.Max and the midpoint over ±Inf/NaN |
| `MembershipFunctions` | membership.dfy | membership.go |
| `Catalog` | variable.dfy | variable.go |
| `ResultSelection` | result.dfy | result.go |
| `Contexts` | context.dfy | context.go |
| `Expressions` | expressions.dfy | is.go, and.go, or.go, not.go |
| `FuzzyRules` | rule.dfy | rule.go |
| `Inference` | engine.dfy | engine.go |
| `AcModeExample` | engine.dfy | the documented air-conditioning example |
| `DslComments` | dsl_comments.dfy | dsl/comments.go |
| `DslTokens` | dsl_token.dfy | dsl/token.go, dsl/position.go, the ParseError record |
| `DslMemberships` | dsl_membership.dfy | dsl/membership.go, parseFloat |
| `DslParser` | dsl_parser.dfy | dsl/expressions.go, dsl/variables.go, dsl/parser.go |
| `DslParserFacts` | dsl_parser_facts.dfy | properties of the parser |
| `DslFlattening` | dsl_flattening.dfy | what AND/OR flattening means |
| `DslApi` | dsl_api.dfy | dsl/api.go |

## Model

| member | source | states |
|---|---|---|
| MembershipFunctions.Membership.Operands | membership.go:45-47 | The operands of a Min or Max membership are `first`, then `rest`, in construction order. |
| MembershipFunctions.Value | membership.go:16-175 | Defines each shape's value at x as its Value method computes it: the constant, the Linear ramp or Step, the Triangular and Trapezoid pieces, 1 − the operand for Inverted, and the running minimum or maximum of the operands. |
| MembershipFunctions.Domain | membership.go:20-179 | Defines each shape's domain as its Domain method returns it, the first and last parameter for the shapes and the operand's or operands' domain for the others. |
| MembershipFunctions.MinAllBounds | membership.go:32-39 | The minimum of a non-empty list is at most every element and equals one of them. |
| MembershipFunctions.MaxAllBounds | membership.go:53-60 | The maximum of a non-empty list is at least every element and equals one of them. |
| MembershipFunctions.RunningMin | membership.go:33-36 | math.Min of the +Inf seed, or of the running minimum of the first i values, with the next value is the minimum of the first i+1 values. |
| MembershipFunctions.RunningMax | membership.go:54-57 | math.Max of the -Inf seed (or of the running maximum) with the next value is the maximum of one more value. |
| MembershipFunctions.OperandValues | membership.go:34-35 | The operand values at x, in operand order. |
| MembershipFunctions.Fraction | membership.go:88 | A ratio whose numerator lies in [0, den] lies in [0,1]; it is 1 when numerator equals denominator and 0 when the numerator is 0. |
| MembershipFunctions.FractionBounds | membership.go:88 | The same bounds for the plain quotient. |
| MembershipFunctions.OperandDomains | membership.go:189-190 | The operand domains, in operand order. |
| MembershipFunctions.MinValue | membership.go:32-39 | The loop seeded with +Inf returns the Min membership's value: the minimum of the operand values. |
| MembershipFunctions.MaxValue | membership.go:53-60 | The loop seeded with -Inf returns the Max membership's value: the maximum of the operand values. |
| MembershipFunctions.MembershipsDomain | membership.go:185-196 | With no membership the result is (+Inf, -Inf). Otherwise both bounds are finite and form the domain of the Min over the list. |
| MembershipFunctions.Bounds | membership.go:185-196 | The domain of a Min over a list is (smallest lower bound, largest upper bound) of the list's domains. |
| MembershipFunctions.ConstantIsFlat | membership.go:16-22 | Constant(y) is y everywhere, and its domain is (y, y). |
| MembershipFunctions.LinearRamp | membership.go:83-91 | For x1 < x2, Linear is 0 below x1, (x-x1)/(x2-x1) on [x1,x2] and 1 above. It is always in [0,1], is 0 at x1 and 1 at x2, and is 0.5 at the midpoint. |
| MembershipFunctions.LinearStepAt | membership.go:76-104 | For x1 ≥ x2, Linear is a step at x1: 0 below and 1 from x1 on. Step(x1) has the same values. |
| MembershipFunctions.TriangularPeak | membership.go:112-122 | For x1 < x2 < x3, Triangular is 0 at x1 and x3 and outside them, 1 at x2, and in [0,1] everywhere. |
| MembershipFunctions.TriangularMonotone | membership.go:112-122 | Triangular rises up to the peak and falls after it. |
| MembershipFunctions.TrapezoidPlateau | membership.go:161-163 | For x2 ≤ x3, whatever the shoulders (degenerate ones with x1 = x2 or x3 = x4 included), Trapezoid is 1 on the closed plateau [x2,x3]. |
| MembershipFunctions.TrapezoidEdges | membership.go:155-175 | For x1 ≤ x2 ≤ x3 ≤ x4, Trapezoid is 0 outside [x1,x4] and in [0,1] everywhere. It is 0 at x1 (x4) when that shoulder slopes, and 1 there when the shoulder is degenerate. |
| MembershipFunctions.TrapezoidAsTriangle | membership.go:155-175 | Trapezoid(a,b,b,c) equals Triangular(a,b,c) everywhere. |
| MembershipFunctions.TrapezoidSamples | membership_test.go:125-173 | The values the unit tests expect of Trapezoid(10,20,30,40) and Trapezoid(10,20,20,30). |
| MembershipFunctions.InvertedComplement | membership.go:136-142 | Inverted(m) is 1 − m at every x and has m's domain; a double inversion gives m back. |
| MembershipFunctions.ValueNormalised | membership.go:16-175 | Every membership built from constants in [0,1] and the other shapes has its values in [0,1]. |
| MembershipFunctions.OperandsNormalised | membership.go:32-60 | A Min or Max of such memberships stays in [0,1]. |
| MembershipFunctions.MinMaxPointwise | membership.go:32-60 | Min is at most every operand and Max at least every operand, and each equals one of its operands at x. |
| MembershipFunctions.MinMaxDomain | membership.go:41-64 | Min and Max over the same operands have the same domain. It contains every operand's domain, and each bound is attained by some operand. |
| MembershipFunctions.DomainInConstructionOrder | membership.go:94-179 | The domains are (x1, x2) for Linear, (x1, x3) for Triangular and (x1, x4) for Trapezoid, in construction order and never re-ordered. |
| Floats.Min | membership.go:191 | math.Min is -Inf whenever either side is -Inf, before NaN is looked at. On finite values it is the smaller one, and +Inf yields to any non-NaN value. |
| Floats.Max | membership.go:192 | math.Max is +Inf whenever either side is +Inf, before NaN is looked at. On finite values it is the larger one, and -Inf yields to any non-NaN value. |
| Floats.Midpoint | engine.go:57-59 | (a+b)/2 on finite values; +Inf with -Inf gives NaN. |
| Catalog.Variable.Term | variable.go:21-28 | The term indexed under the name, else UndefinedTerm. |
| Catalog.TermDomains | variable.go:75-77 | Each term's domain is its membership's domain, in list order. |
| Catalog.BuildVariable | variable.go:38-60 | Defines NewVariable's result: TermAlreadyExists for a repeated term name, else the variable with its terms indexed by name and its universe bounds the running Min and Max of the term domains. |
| Catalog.NewVariable | variable.go:38-60 | The indexing loop with its running bounds returns what BuildVariable describes. |
| Catalog.IndexStep | variable.go:43-48 | Adding a term with a fresh name keeps the names distinct and extends the index by that term. |
| Catalog.IndexDuplicate | variable.go:44-46 | A name already in the index means the term list has a repeated name. |
| Catalog.TermLookup | variable.go:38-60 | A built variable keeps its name. Every term of the list is found under its own name, and a name no term has is UndefinedTerm. |
| Catalog.DuplicateTermFails | variable.go:43-46 | NewVariable fails exactly when two terms share a name, and then with TermAlreadyExists. |
| Catalog.UniverseBounds | variable.go:40-51 | With no term the bounds stay +Inf and -Inf. Otherwise they are finite, enclose every term's domain, and are attained by some term. |
| Contexts.Env.Variable | context.go:15-22 | The registered variable, else UndefinedVariable. |
| Contexts.Env.Value | context.go:24-31 | The input value, else ValueNotFound. |
| Contexts.Context.constructor | context.go:84-88 | A context over the given variables and inputs, with empty results. |
| Contexts.Context.Result | context.go:60-67 | The results of a known variable; an empty map for an unknown one, without adding it. |
| Contexts.Context.AddResult | context.go:33-58 | The results map becomes the accumulated update AddTo of the old one. |
| Contexts.Clip | context.go:47 | Defines the clipped membership Min(Constant(td), membership of the term). |
| Contexts.Merge | context.go:39-55 | Defines the stored result: on the first call the term, td and the clipped membership; later the larger degree and the Max of the old and the clipped membership. |
| Contexts.AddTo | context.go:33-58 | Defines AddResult's new results map: the merged result stored under the variable and the term name. |
| Contexts.NewContext | context.go:73-89 | It succeeds exactly when the variable names are distinct; otherwise it fails with VariableAlreadyExists. A new context indexes the variables by name, keeps the inputs, and starts with no result. |
| Contexts.VariableIndexStep | context.go:76-82 | Adding a variable with a fresh name keeps the names distinct and extends the index. |
| Contexts.VariableIndexDuplicate | context.go:77-79 | A name already in the index means the variable list has a repeated name. |
| Contexts.AddToDegree | context.go:39-55 | After AddResult the term's degree is the new degree on the first call, else the larger of the old and the new one. Either way it is at least the new degree. |
| Contexts.ClipValue | context.go:47 | Min(Constant(td), m) has value min(td, m(x)). |
| Contexts.MaxPairValue | context.go:50 | Max(a, b) has value max(a(x), b(x)). |
| Contexts.AddToMembership | context.go:47-53 | The stored membership is the clipped term on the first call, else the Max of the old one and the clipped term. |
| Contexts.AddToFrame | context.go:33-58 | Only results[variable][term] changes. Every other variable and every other term of that variable keep their entries. |
| Expressions.Expr.Operands | and.go:28-34 | The operands of an And or Or are `first`, then `rest`, in the order given. |
| Expressions.Eval | is.go:20-37 | Defines the value of an expression (also and.go:13-26, or.go:13-26, not.go:11-18): IS looks up the variable, the term and the input; AND and OR are the minimum and maximum of the operands or the first error; NOT is 1 − the operand. |
| Expressions.EvalFrom | and.go:13-26 | Defines the operand values from index i on, in order, or the first operand error. |
| Expressions.MakeAnd | and.go:28-34 | And() fails with MissingArguments exactly for no operand; otherwise it keeps the operands in order. |
| Expressions.MakeOr | or.go:28-34 | Or() fails with MissingArguments exactly for no operand; otherwise it keeps the operands in order. |
| Expressions.EvalFromFirstFail | and.go:16-20 | When the operands before j succeed and operand j fails, the evaluation fails with operand j's error. |
| Expressions.EvalFromFailSource | and.go:16-20 | A failed evaluation carries the error of an operand all of whose predecessors succeeded. |
| Expressions.ValueOf | is.go:20-37 | The recursive Value method returns Eval of the expression in the context, and leaves the context unchanged. |
| Expressions.AndValue | and.go:13-26 | The fold over the operands returns the And's Eval: the minimum, or the first error. |
| Expressions.OrValue | or.go:13-26 | The fold over the operands returns the Or's Eval: the maximum, or the first error. |
| Expressions.OperandsSucceed | and.go:14-25 | When every operand succeeds, And is the minimum and Or the maximum of the operand values. |
| Expressions.OperandFails | and.go:16-20 | The first failing operand's error is the And's or Or's error. |
| Expressions.IsLookupOrder | is.go:21-36 | IS looks up the variable, then the term, then the input, and reports the first missing one. Otherwise its value is the term's membership at the input. |
| Expressions.AndOrBounds | and.go:14-23 | A successful And is at most every operand, and a successful Or at least every operand. Each equals one of its operands. |
| Expressions.OperandValuesOf | and.go:14-25 | A successful And or Or has one value per operand, and is their minimum or maximum. |
| Expressions.AndOrFirstError | and.go:16-20 | And or Or fails with err exactly when some operand fails with err and all operands before it succeed. |
| Expressions.NotComplement | not.go:11-18 | NOT is 1 − the operand's value, passes the operand's error on, stays in [0,1], and NOT NOT e has e's value. |
| Expressions.EvalInUnit | not.go:11-18 | Over variables whose memberships have degrees in [0,1], every successful expression is in [0,1]. |
| FuzzyRules.Rule.If | rule.go:26-30 | If(e): premise e and no conclusion. |
| FuzzyRules.Rule.constructor | rule.go:22-24 | NewRule keeps the premise and conclusion exactly. |
| FuzzyRules.Rule.Then | rule.go:16-20 | Then sets the conclusion to Is(variable, term), keeps the premise, and returns the same rule. |
| ResultSelection.Entries | result.go:10 | The results of a variable not in the map are empty. |
| ResultSelection.Best | result.go:7-21 | A found result is one of the variable's results, with the top truth degree, which is non-zero. Nothing is found exactly when there is no result or the top degree is 0. |
| ResultSelection.BelowTotal | result.go:28 | The byte-wise string order of sort.Strings is total. |
| ResultSelection.BelowTransitive | result.go:28 | That order is transitive. |
| ResultSelection.Insert | result.go:28 | Inserting adds exactly one element. |
| ResultSelection.InsertSorted | result.go:28 | Inserting into a sorted list keeps it sorted. |
| ResultSelection.InsertDistinct | result.go:28 | Inserting a new element keeps the elements distinct. |
| ResultSelection.SortStrings | result.go:28 | The output is sorted, is a permutation of the input, and keeps distinct elements distinct. |
| ResultSelection.Variables | result.go:23-30 | Every variable of the results appears exactly once, in ascending order. |
| Inference.FirstNamed | engine.go:44-50 | The index of the first variable with the name. |
| Inference.Aggregate | engine.go:61-64 | A Max with one operand per result of the variable. |
| Inference.Fire | engine.go:19-37 | Defines one rule's firing: the conclusion's variable, then its term, then the premise's value, the first missing one failing, else AddTo with the premise's degree. |
| Inference.FireAll | engine.go:18-38 | Defines the rules fired in order from some results, the first failing rule aborting. |
| Inference.InferSpec | engine.go:15-41 | Defines Infer on rules that all have a conclusion: NewContext's error, or FireAll from no result. |
| Inference.FirstUnconcluded | engine.go:18-20 | The index of the first rule without a conclusion, or the number of rules. Every rule before it has one. |
| Inference.InferRules | engine.go:15-41 | Defines Infer on any rules: the rules before the first one without a conclusion fire, and if they all succeed, that rule is Fail(NilConclusion). |
| Inference.InferConcluded | engine.go:15-41 | When every rule has a conclusion, Infer is InferSpec over all of them. |
| Inference.InferNilConclusion | engine.go:18-20 | For k the first rule without a conclusion: when the rules before it succeed, Infer fails with NilConclusion, and when one of them fails, Infer fails with that error. |
| Inference.Engine.constructor | engine.go:79-86 | No rule and no variable; a missing defuzzifier becomes Centroid(1000). |
| Inference.Engine.Snapshot | engine.go:18-20 | The premise and the conclusion, absent when Then was never called, of every rule, in order. |
| Inference.Engine.Infer | engine.go:15-41 | Infer returns InferRules of the rules as they are: a context over the variables, then the rules fired in order, and the first error aborts. Reaching a rule without a conclusion is Fail(NilConclusion), the nil dereference at line 19. |
| Inference.Engine.Defuzzify | engine.go:43-67 | An unknown variable is UndefinedVariable. With no result the value is the midpoint of the first matching variable's universe. Otherwise the defuzzifier is applied to the Max of that variable's result memberships, in some order of the keys, and the universe bounds. |
| Inference.Engine.Variables | engine.go:69-72 | Replaces the variables, keeps the rest, and returns the same engine. |
| Inference.Engine.Rules | engine.go:74-77 | Replaces the rules, keeps the rest, and returns the same engine. |
| Inference.FireStep | engine.go:19-37 | After one rule fires, there is an entry for (v, t) exactly when there was one or the rule concludes (v, t). The concluded entry's degree is at least the premise's value and is either the premise's value or the old degree. No degree decreases, and other entries are unchanged. |
| Inference.FireAllEntries | engine.go:18-38 | After all rules fire, there is an entry for (v, t) exactly when there was one or some rule concludes (v, t), premise value 0 included. |
| Inference.FireAllUpperBound | engine.go:18-38 | After all rules fire, each concluded entry's degree is at least every concluding premise and no degree decreases. |
| Inference.FireAllAttained | engine.go:18-38 | Each entry's degree is its old degree or the value of a premise that concludes it. |
| Inference.InferEntries | engine.go:15-41 | After Infer, an entry exists exactly when a rule concludes it, and its degree is the largest of those rules' premise values. |
| Inference.AggregateOperands | engine.go:61-64 | The i-th operand is the membership of the i-th result of the order. |
| Inference.AggregateValue | engine.go:61-66 | The aggregate is at least every result membership at x and equals one of them. |
| Inference.AggregateDomain | engine.go:61-66 | The aggregate's domain encloses every result's domain, and each bound is attained by some result. |
| Inference.AggregateValueOrderFree | engine.go:62 | The aggregate's value does not depend on the map's iteration order. |
| Inference.AggregateDomainOrderFree | engine.go:62 | The aggregate's domain does not depend on the map's iteration order. |
| AcModeExample.TemperatureCatalog | example_test.go:16-21 | The temperature variable builds and finds each term under its name. |
| AcModeExample.AcModeCatalog | example_test.go:24-29 | The ac_mode variable builds and finds each term under its name. |
| AcModeExample.PairLookup | example_test.go:14-30 | The two variables have distinct names, and the context finds each. |
| AcModeExample.PremisesAt30 | example_test.go:51-53 | At 30 °C, cold and comfortable are 0 and hot is 1. |
| AcModeExample.FiringAt30 | example_test.go:33-56 | The three rules fired at 30 °C give the expected results. |
| AcModeExample.EntriesAt30 | example_test.go:72-77 | Those results have heating 0, off 0 and cooling 1. |
| AcModeExample.BestAt30 | example_test.go:72-77 | Best on the ac_mode results at 30 °C returns cooling, with truth degree 1. |
| AcModeExample.AcModeAt30 | example_test.go:9-77 | Infer on the example engine at 30 °C succeeds, with heating 0, off 0 and cooling 1 for ac_mode. |
| DslComments.LineEnd | dsl/comments.go:38 | strings.IndexByte for '\n': the first newline, or the length when there is none. |
| DslComments.Spaces | dsl/comments.go:48-50 | n spaces. |
| DslComments.Blank | dsl/comments.go:24-29 | A block comment's body as written out: newlines kept, every other character a space. |
| DslComments.Code | dsl/comments.go:36-73 | Defines the output for the rest of the input outside a comment: a `//` comment becomes spaces and its newline, `/*` a space, any other character itself. |
| DslComments.Block | dsl/comments.go:13-33 | Defines the output for the rest of the input inside a block comment: `*/` becomes a space, a newline stays, any other character becomes a space. |
| DslComments.Strip | dsl/comments.go:6-77 | Defines removeComments' result: the whole input read from outside any comment. |
| DslComments.RemoveComments | dsl/comments.go:6-77 | The index-and-flag scan returns Strip of the input. |
| DslComments.WriteSpaces | dsl/comments.go:48-50 | The loop appends exactly n spaces. |
| DslComments.BlockCloses | dsl/comments.go:14-21 | Inside a block comment, the closing delimiter becomes one space and scanning goes on outside the comment. |
| DslComments.BlockGoesOn | dsl/comments.go:23-32 | Inside a block comment, a newline is kept and any other character becomes a space. |
| DslComments.LineCommentStep | dsl/comments.go:36-59 | A `//` comment becomes spaces up to its newline, then the newline. At the end of the input it becomes one newline. |
| DslComments.BlockOpens | dsl/comments.go:62-69 | `/*` becomes one space and scanning goes on inside the comment. |
| DslComments.CodeGoesOn | dsl/comments.go:71-73 | Any other character is copied. |
| DslComments.CopiedWithoutSlash | dsl/comments.go:71-73 | Text without `/` is copied, and stripping goes on after it. |
| DslComments.NoSlashUnchanged | dsl/comments.go:36-73 | Text without a `/` is returned unchanged. |
| DslComments.LineComment | dsl/comments.go:46-57 | A `//` comment ended by a newline becomes as many spaces as it has characters, then that newline. |
| DslComments.TrailingLineComment | dsl/comments.go:38-44 | An unterminated `//` ends the output with one newline; nothing after it is copied. |
| DslComments.BlockBody | dsl/comments.go:13-33 | Inside a block comment, everything up to the first closing delimiter is blanked. `/*` and `//` inside have no effect. |
| DslComments.BlockComment | dsl/comments.go:13-69 | A block comment becomes a space, its blanked body, and a space. The first closing delimiter closes it, so comments do not nest. |
| DslComments.OpenBlock | dsl/comments.go:23-32 | An unterminated block comment blanks the rest of the text. |
| DslComments.CodeNewlines | dsl/comments.go:24-57 | Outside comments the output has the input's newlines, plus one only after an unterminated trailing `//`. |
| DslComments.LineNewlines | dsl/comments.go:46-57 | A `//` comment ended by a newline keeps that newline count. |
| DslComments.OpenNewlines | dsl/comments.go:62-69 | Opening a block comment keeps the newline count. |
| DslComments.CopyNewlines | dsl/comments.go:71-73 | Copying a character keeps the newline count. |
| DslComments.BlockNewlines | dsl/comments.go:13-33 | Inside a block comment every newline is kept. |
| DslComments.StripNewlines | dsl/comments.go:11-77 | The stripped text has the input's newlines, plus one only after an unterminated trailing `//`. |
| DslTokens.Lines | dsl/token.go:49 | strings.Split on newlines gives at least one piece. |
| DslTokens.Pad | dsl/token.go:63-66 | Defines the four ReplaceAll calls: each `;`, `(`, `)` and `,` between two spaces. |
| DslTokens.Fields | dsl/token.go:69 | Defines strings.Fields: the maximal runs of non-space characters, in order. |
| DslTokens.IndexOf | dsl/token.go:78 | Defines strings.Index: the first index at which the word occurs, or -1. |
| DslTokens.KindOf | dsl/token.go:102 | Defines the switch on the upper-cased word. |
| DslTokens.Keyword | dsl/token.go:102-138 | Defines the cases of the switch: each keyword and punctuation spelling to its kind, VARIABLE otherwise. |
| DslTokens.LineWords | dsl/token.go:56-93 | Defines one line's records: none for a blank line, else each field of the padded line with the line number and 1 + its first index. |
| DslTokens.Placements | dsl/token.go:52-94 | Defines the first pass: the records of every line, numbered from 1, in order. |
| DslTokens.Tokens | dsl/token.go:38-148 | Defines tokenize's result: the comments removed, the lines split, and each record classified by its word. |
| DslTokens.WordEnd | dsl/token.go:69 | The length of the leading run of non-space characters. |
| DslTokens.Upper | dsl/token.go:102 | Upper-casing keeps the length and maps each character. |
| DslTokens.Tokenize | dsl/token.go:38-148 | The two passes return Tokens of the text. It never fails. |
| DslTokens.PlaceLine | dsl/token.go:61-93 | The word loop records each word of the padded line with its line and column. |
| DslTokens.LineWordAt | dsl/token.go:71-89 | The i-th record of a line is the i-th word, at 1 + the index of its first occurrence in the padded line. |
| DslTokens.Classify | dsl/token.go:97-145 | The second pass gives one token per record, with the record's word, position and kind. |
| DslTokens.FieldsAreRuns | dsl/token.go:69 | Every field is a maximal non-empty run of non-space characters. |
| DslTokens.IndexOfFound | dsl/token.go:78-81 | strings.Index returns an index where the word occurs. |
| DslTokens.IndexOfFirst | dsl/token.go:78 | That index is the first occurrence, and -1 is returned only when there is none. |
| DslTokens.FieldOccurs | dsl/token.go:78-81 | A field of the line occurs in it, so its column is always found. |
| DslTokens.PadIsolates | dsl/token.go:63-66 | In a padded line every `;`, `(`, `)` and `,` has a space on both sides. |
| DslTokens.SpecialStandsAlone | dsl/token.go:63-69 | A word holding punctuation is that character alone, even when the source glued it to its neighbours. |
| DslTokens.PlacementsPlaced | dsl/token.go:52-93 | Every record is a word of its 1-based line at its first column, and the lines never decrease. |
| DslTokens.TokenFacts | dsl/token.go:38-148 | Every token has a non-empty value without whitespace, punctuation only as a whole token, and the kind its value names. Lines are 1-based and non-decreasing. Equal words on a line share a column. |
| DslTokens.KindOfKeywords | dsl/token.go:102-138 | A word has a keyword kind exactly when its upper case is that keyword. Any other word, a numeral included, is VARIABLE. |
| DslTokens.KeywordSpelling | dsl/token.go:102-134 | The switch maps exactly each spelling to its kind. |
| DslTokens.KeywordSpelt | dsl/token.go:102-134 | A word of a keyword kind is that kind's spelling. |
| DslTokens.SpellingKeyword | dsl/token.go:102-134 | Each spelling is read back as its kind. |
| DslTokens.CaseInsensitive | dsl/token.go:102 | Words equal up to case have the same kind. |
| DslTokens.LinesFromText | dsl/token.go:49 | Every line is made of the text's characters. |
| DslTokens.BlankLinesNoPlacements | dsl/token.go:57-59 | Blank lines record nothing. |
| DslTokens.NoTokensFromBlankText | dsl/token.go:40-59 | A text that is blank once its comments are removed has no tokens. |
| DslTokens.CommentsYieldNoTokens | dsl/token.go:40 | A lone `//` comment or a lone block comment yields no tokens. |
| DslMemberships.ParseFloat | dsl/parser.go:70-76 | Succeeds exactly on a numeral, with its value; otherwise it is "invalid number" at the numeral. |
| DslMemberships.Expect | dsl/membership.go:71-74 | It succeeds exactly on the expected kind and moves one token on. Otherwise the error is at the token before the cursor. |
| DslMemberships.Parameter | dsl/membership.go:78-87 | It succeeds exactly on a VARIABLE numeral, with its value. A non-numeral is an invalid number at that token, and anything else is the message at the previous token. |
| DslMemberships.ParseLinear | dsl/membership.go:69-128 | Never crashes, and the cursor stays within the tokens. |
| DslMemberships.ParseTriangular | dsl/membership.go:131-197 | Never crashes, and the cursor stays within the tokens. |
| DslMemberships.ParseTrapezoid | dsl/membership.go:200-285 | Never crashes, and the cursor stays within the tokens. |
| DslMemberships.Dispatch | dsl/membership.go:28-42 | Success moves the cursor past the keyword. The guarded dispatcher never crashes. |
| DslMemberships.ParseInverted | dsl/membership.go:288-310 | Success moves the cursor on; the guarded form never crashes. |
| DslMemberships.LinearExact | dsl/membership.go:69-128 | It succeeds exactly on `( n , n )` with two numerals. It then gives the LINEAR shape of the two values in source order and the cursor past `)`. |
| DslMemberships.LinearShape | dsl/membership.go:117-127 | Defines the LINEAR shape: Linear(x1, x2) when rising, Inverted(Linear(x2, x1)) when falling, Step(x1) when equal. |
| DslMemberships.TriangularExact | dsl/membership.go:131-197 | It succeeds exactly on `( n , n , n )`, then gives Triangular of the values in source order, 7 tokens on. |
| DslMemberships.TrapezoidExact | dsl/membership.go:200-285 | It succeeds exactly on `( n , n , n , n )`, then gives Trapezoid of the values in source order, 9 tokens on. |
| DslMemberships.LinearShapeEnds | dsl/membership.go:117-127 | LINEAR(x1, x2) is 1 at x2 and 0 at x1 when they differ, in either order. For x1 > x2 it falls from 1 to 0, and it always stays in [0,1]. |
| DslMemberships.InvertedWraps | dsl/membership.go:288-310 | It succeeds exactly on `(`, one membership read through the dispatcher, and `)`, and wraps that membership in Inverted. |
| DslMemberships.UnknownFunction | dsl/membership.go:34-39 | A keyword missing from the table is "unknown membership function type" at the keyword, with the cursor past it. |
| DslMemberships.DefaultDispatch | dsl/membership.go:61-66 | The default table sends LINEAR, TRIANGULAR, TRAPEZOID and INVERTED to their parsers, and nothing else. |
| DslMemberships.EmptyTableReadsNothing | dsl/membership.go:34-39 | With an empty table no membership function is ever read. |
| DslMemberships.PositionedLinear | dsl/membership.go:69-128 | Every error is at the token before its cursor, except an invalid number, which is at the numeral. |
| DslMemberships.PositionedTriangular | dsl/membership.go:131-197 | The same error positions for TRIANGULAR. |
| DslMemberships.PositionedTrapezoid | dsl/membership.go:200-285 | The same error positions for TRAPEZOID. |
| DslMemberships.PositionedDispatch | dsl/membership.go:28-42 | The same error positions through the dispatcher. |
| DslMemberships.PositionedInverted | dsl/membership.go:288-310 | The same error positions for INVERTED. |
| DslMemberships.GuardAgrees | dsl/membership.go:28-42 | The unguarded dispatcher agrees with the guarded one whenever it does not crash. It crashes only where the guarded one reports the missing keyword. |
| DslMemberships.GuardAgreesInverted | dsl/membership.go:288-310 | The same agreement for INVERTED. |
| DslMemberships.InvertedAtEnd | dsl/membership.go:29 | On `INVERTED (` as the last two tokens, the unguarded dispatcher crashes, while the guarded one reports the missing keyword. |
| DslParser.SkipTo | dsl/expressions.go:22-29 | The first token of the kind from the cursor on, or the end. |
| DslParser.ErrorPos | dsl/expressions.go:49-56 | Defines the reported position: the current token, else the last one, else line 1 column 1. |
| DslParser.Conjoin | dsl/expressions.go:243-279 | Defines the AND node built from two sides: left's flattened operands, then right's. |
| DslParser.Disjoin | dsl/expressions.go:280-317 | Defines the OR node built from two sides: left's flattened operands, then right's. |
| DslParser.IsExpression | dsl/expressions.go:196-237 | Never crashes; success consumes three tokens. |
| DslParser.SimpleExpression | dsl/expressions.go:186-193 | Never crashes; success consumes three tokens. |
| DslParser.AndOperands | dsl/expressions.go:252-279 | An operand contributes one or more operands to a flat AND. |
| DslParser.OrOperands | dsl/expressions.go:289-316 | An operand contributes one or more operands to a flat OR. |
| DslParser.Expression | dsl/expressions.go:98-183 | Never crashes; success consumes at least one token. |
| DslParser.Negation | dsl/expressions.go:100-148 | After NOT: never crashes; success consumes tokens. |
| DslParser.Closed | dsl/expressions.go:150-173 | After `(`: never crashes; success consumes tokens. |
| DslParser.Combination | dsl/expressions.go:240-322 | Never crashes, and the cursor stays within the tokens. |
| DslParser.RuleStatement | dsl/expressions.go:10-95 | Every rule statement moves the cursor on by at least one token. |
| DslParser.RuleAfterIf | dsl/expressions.go:41-59 | The cursor stays within the tokens. |
| DslParser.RuleAfterThen | dsl/expressions.go:62-94 | The cursor stays within the tokens. |
| DslParser.MembershipFunction | dsl/membership.go:21-52 | Success moves the cursor on; on an error the cursor stays at the keyword. It reads through Dispatch with Guarded, the corrected closure. |
| DslParser.TermDefinition | dsl/variables.go:68-93 | Never crashes, and the cursor moves on. |
| DslParser.TermList | dsl/variables.go:29-47 | Success stops at `)` or at the end of the tokens. |
| DslParser.TermListUnfold | dsl/variables.go:37-46 | A list starting with a term definition is that term, then the list after it, one optional comma skipped. |
| DslParser.VariableStatement | dsl/variables.go:8-65 | The cursor moves on, and a statement gives a variable exactly when it gives no error. |
| DslParser.VariableAfterOpen | dsl/variables.go:27-65 | A variable exactly when there is no error. |
| DslParser.VariableEnd | dsl/variables.go:49-64 | A variable exactly when there is no error. |
| DslParser.StatementAt | dsl/parser.go:32-50 | Each turn of the statement loop moves the cursor on by at least one token, so parse terminates. |
| DslParser.Statements | dsl/parser.go:31-56 | Defines the statement loop: each statement's rule, variable and errors collected in order, a panic aborting. |
| DslParser.ParseFrom | dsl/parser.go:26-67 | Defines parse: a panic is Panicked, any collected error is SyntaxErrors with all of them, and otherwise the rules and variables. |
| DslParser.Parser.constructor | dsl/parser.go:19-23 | A parser over the tokens, table and numeral parser, with the cursor at 0. |
| DslParser.Parser.ParseIsExpression | dsl/expressions.go:196-237 | Returns IsExpression at the old cursor and moves current to its cursor. |
| DslParser.Parser.ParseSimpleExpression | dsl/expressions.go:186-193 | Returns SimpleExpression at the old cursor and moves current to its cursor. |
| DslParser.Parser.ParseExpression | dsl/expressions.go:98-183 | Returns Expression at the old cursor and moves current to its cursor. |
| DslParser.Parser.ParseNegation | dsl/expressions.go:100-148 | Returns Negation at the old cursor and moves current to its cursor. |
| DslParser.Parser.ParseClosed | dsl/expressions.go:150-173 | Returns Closed at the old cursor and moves current to its cursor. |
| DslParser.Parser.ParseLogicalCombination | dsl/expressions.go:240-322 | Returns Combination at the old cursor and moves current to its cursor. |
| DslParser.Parser.SkipPast | dsl/expressions.go:22-24 | The recovery loop (also the one at lines 84-86) moves current to the first token of the kind from the old cursor on, or to the end. |
| DslParser.Parser.ParseRule | dsl/expressions.go:10-95 | Returns RuleStatement at the old cursor and moves current to its cursor. |
| DslParser.Parser.ParseRuleAfterIf | dsl/expressions.go:41-59 | Returns RuleAfterIf and moves current to its cursor. |
| DslParser.Parser.ParseRuleAfterThen | dsl/expressions.go:62-94 | Returns RuleAfterThen and moves current to its cursor. |
| DslParser.Parser.ParseMembershipFunction | dsl/membership.go:21-52 | Returns MembershipFunction with the parser's table, so through the guarded dispatcher, and moves current to its cursor. |
| DslParser.Parser.ParseTermDefinition | dsl/variables.go:68-93 | Returns TermDefinition and moves current to its cursor. |
| DslParser.Parser.ParseTermList | dsl/variables.go:29-47 | The term loop returns TermList and moves current to its cursor. |
| DslParser.Parser.ParseVariableDefinition | dsl/variables.go:8-65 | Returns VariableStatement and moves current to its cursor. |
| DslParser.Parser.ParseVariableAfterOpen | dsl/variables.go:27-65 | Returns VariableAfterOpen and moves current to its cursor. |
| DslParser.Parser.FinishVariable | dsl/variables.go:49-64 | Returns VariableEnd and moves current to its cursor. |
| DslParser.Parser.ParseStatement | dsl/parser.go:32-50 | Returns StatementAt and moves current to the next statement. |
| DslParser.Parser.Parse | dsl/parser.go:26-67 | The statement loop returns ParseFrom at the old cursor, and it ends at the end of the tokens unless a panic aborts it. |
| DslParser.TermStep | dsl/variables.go:29-47 | One term of the term loop extends the consumed prefix by that term. |
| DslParser.StatementsStep | dsl/parser.go:31-56 | After one turn, the loop's result is what was collected so far, plus that statement's rule, variable and errors, plus the statements from the new cursor. |
| DslParserFacts.SkipToFirst | dsl/expressions.go:22-24 | The recovery loop stops at the first token of the kind. |
| DslParserFacts.RuleWithoutIf | dsl/expressions.go:16-35 | A statement not starting with IF is "expected rule to start with IF, found …" at its first token, with no rule. The cursor moves just past the next `;`, or to the end. |
| DslParserFacts.IsExpressionExact | dsl/expressions.go:196-237 | It succeeds exactly on `name IS name`, returns both names, and consumes three tokens. |
| DslParserFacts.TermDefinitionExact | dsl/variables.go:68-93 | A term definition succeeds exactly on TERM, a name and a membership function, and gives the term of that name and membership. A missing name is "expected term name" at TERM, a missing function is reported at the name, and a membership error is passed on. |
| DslParserFacts.RuleMissingThen | dsl/expressions.go:47-59 | A premise without THEN is "expected THEN after premise" at the next token, or at the last token at the end. |
| DslParserFacts.RuleMissingSemicolon | dsl/expressions.go:68-89 | A rule without its `;` is returned with the error, at the next token or the last one, and the cursor moves to the next IF or to the end. |
| DslParserFacts.RuleWellFormed | dsl/expressions.go:10-95 | A rule has no error exactly when it is `IF premise THEN name IS name ;`. It then holds the premise and the conclusion, and the cursor is just past `;`. |
| DslParserFacts.ConclusionWellFormed | dsl/expressions.go:62-94 | After THEN a rule has no error exactly on `name IS name ;`. |
| DslParserFacts.NotTakesOneIs | dsl/expressions.go:135-147 | NOT before a name negates that one IS expression. A following AND or OR takes the negation as its left side. |
| DslParserFacts.UnclosedParen | dsl/expressions.go:158-168 | `( e` without `)` is "missing closing parenthesis" after e, or at the last token. |
| DslParserFacts.AndOrNesting | dsl/expressions.go:240-322 | There is no precedence: `a AND b OR c` is And(a, Or(b, c)). |
| DslParserFacts.OrAndNesting | dsl/expressions.go:240-322 | There is no precedence: `a OR b AND c` is Or(a, And(b, c)). |
| DslParserFacts.ConnectiveTakesRest | dsl/expressions.go:240-322 | For any tokens: after an IS expression, AND (OR) takes the whole rest of the expression as its right side, giving Conjoin (Disjoin) of the two; otherwise the IS expression stands alone. |
| DslParserFacts.AndChainFlattens | dsl/expressions.go:243-279 | `a AND b AND c` is one flat And(a, b, c). |
| DslParserFacts.ConjoinOperands | dsl/expressions.go:252-316 | The flat node has left's operands (or left), then right's operands (or right), and never fewer than two operands. |
| DslParserFacts.VariableHeader | dsl/variables.go:14-26 | DEFINE without a name is an error at DEFINE, and a name without `(` is an error at the name. |
| DslParserFacts.VariableBody | dsl/variables.go:27-65 | After `DEFINE name (`, the result is whatever the term loop and its `) ;` give. |
| DslParserFacts.VariableEndWellFormed | dsl/variables.go:49-64 | A variable results exactly from `) ;` with distinct term names: NewVariable of the terms in source order, cursor past `;`. With a repeated name it aborts with TermAlreadyExists. |
| DslParserFacts.TermListNeedsTerm | dsl/variables.go:29-38 | Inside a definition, anything but TERM before `)` is an error at that token. |
| DslParserFacts.VisitedError | dsl/parser.go:31-56 | When the loop reaches a statement that reports an error, the loop's error list is non-empty whenever the loop succeeds. |
| DslParserFacts.VisitedPanic | dsl/parser.go:31-56 | A statement the loop reaches that panics makes the loop fail with that panic. |
| DslParserFacts.ErrorDiscardsAll | dsl/parser.go:59-61 | One erring statement makes the parse fail, with no rule and no variable, even a salvaged rule. |
| DslParserFacts.PanicAborts | dsl/parser.go:26-67 | A NewVariable panic in a reached statement aborts the parse with that panic. |
| DslParserFacts.EmptyTableNoTerm | dsl/membership.go:34-39 | With an empty table no term definition succeeds. |
| DslParserFacts.EmptyTableTermList | dsl/variables.go:29-47 | With an empty table a term loop succeeds only when it holds no term. |
| DslParserFacts.EmptyTableStatement | dsl/parser.go:32-50 | With an empty table every variable a statement yields has no term. |
| DslParserFacts.EmptyTableTermless | dsl/parser.go:31-56 | With an empty table every variable the loop collects has no term. |
| DslFlattening.NodeMeaning | and.go:13-26 | An And is the minimum, and an Or the maximum, of its operand list, or its first error. |
| DslFlattening.AndOperandsMeaning | dsl/expressions.go:252-279 | What an operand contributes to a flat AND has that operand's own value. |
| DslFlattening.OrOperandsMeaning | dsl/expressions.go:289-316 | What an operand contributes to a flat OR has that operand's own value. |
| DslFlattening.PairMeaning | and.go:13-26 | And(l, r) is the smaller and Or(l, r) the larger of the two values, or the first error. |
| DslFlattening.ConjoinMeaning | dsl/expressions.go:243-279 | The flat AND has the value, or the first error, of And(left, right). |
| DslFlattening.DisjoinMeaning | dsl/expressions.go:280-317 | The flat OR has the value, or the first error, of Or(left, right). |
| DslApi.ParseRulesAndVariables | dsl/api.go:20-37 | Tokenize, then parse from cursor 0 with the built-in table: the result is a function of the text, either a result or an error. |
| DslApi.ParseRulesAndVariablesAsWritten | dsl/api.go:26-29 | The same with the parser built without a table, as written. |
| DslApi.ParseRules | dsl/api.go:11-17 | Exactly the rules of a successful parse, or its error. |
| DslApi.ParseVariables | dsl/api.go:49-55 | Exactly the variables of a successful parse, or its error. |
| DslApi.ParseRulesOrPanic | dsl/api.go:40-46 | The same rules. Syntax errors become a "failed to parse rules" panic carrying them, while a NewVariable panic (dsl/variables.go:64) passes through as itself. |
| DslApi.ParseVariablesOrPanic | dsl/api.go:58-64 | The same variables. Syntax errors become a "failed to parse variables" panic carrying them, while a NewVariable panic passes through as itself. |
| DslApi.AsWrittenTermless | dsl/api.go:26-29 | Built without a table, a successful parse defines only termless variables. |
| DslApi.OneLinearTermDefault | dsl/dsl_variables_test.go:10-20 | With the built-in table, a DEFINE of one LINEAR(0, 10) term gives exactly that variable and no rule. |
| DslApi.OneLinearTermList | dsl/variables.go:29-47 | The term loop of that definition reads its one term and stops at `)`. |
| DslApi.OneLinearTermEmpty | dsl/membership.go:34-39 | Without a table the same definition fails with two errors: the unknown type at LINEAR, then a rule not starting with IF at LINEAR. |
| DslApi.SkipToSemicolon | dsl/expressions.go:22-29 | Recovery from LINEAR skips to the closing `;`. |
| DslApi.OneLinearTermText | dsl/dsl_variables_test.go:10-20 | For any text with those tokens, ParseVariables succeeds with the variable, while the entry point as written returns those two errors. |

## Left out

- Message texts and error wrapping: the parser keeps a Message code per error (`DslTokens.Text` spells each as the Go code does). parse's joining of messages into "parsing errors: …" with "; " is not modelled; the error list itself is kept. errors.WithStack, errors.Wrap ("tokenization error", "parsing error") and the Error, Line, Column and Unwrap methods of dsl/errors.go are not modelled either.
- Panics are results: a duplicate term (NewVariable), a duplicate variable (NewContext) and an empty And/Or return Fail. A panic in the parser aborts the parse as `Panicked`. The OrPanic entry points return `Fail` of an `ApiPanic`: their own "failed to parse" panic, or `Propagated` for a NewVariable panic, which escapes them unwrapped. Infer's nil dereference of a missing conclusion is `Fail(NilConclusion)`, so the results of the rules fired before it are not returned.
- float64 is modelled as `real`, so rounding is not modelled. ±Inf and NaN appear only as `Floats.Float`, in universe bounds and in the Defuzzify result.
- MembershipFunctions.Value: Triangular(x1, x2, x2) at x2 divides zero by zero in the source (NaN); the model gives 1 there.
- Min() and Max() with no operand (values ±Inf) are not modelled: Min and Max memberships carry at least one operand by type. And() and Or() with no operand are `Expressions.MakeAnd` and `Expressions.MakeOr`, which fail.
- Inference.Engine.Defuzzify: the numbers computed by Centroid and MeanOfMaximum are defuzzify.go's floating-point loops, which are not part of this model. They come in as the `Numeric` parameter; a caller's own function is applied directly.
- strconv.ParseFloat is the `NumberParser` parameter: a function from text to an optional real.
- ResultSelection.Best: which of several tied top results is returned is left open, since it depends on Go's map iteration order. The model assumes a loop variable per iteration (Go 1.22 and later), so `best = &res` keeps the result it met.
- Inference.Engine.Defuzzify: the order of the Max operands, which follows map iteration, is a ghost out-parameter. The lemmas AggregateValueOrderFree and AggregateDomainOrderFree show that the order does not matter.
- The lexer works on characters, not bytes: its columns, from strings.Index, count characters where Go counts bytes. So does the parser's position for a missing IS (dsl/expressions.go:214-217), which adds the name's length in characters where Go adds len, its byte length. The two agree on ASCII text. unicode.IsSpace and unicode.ToUpper are modelled only as far as the ASCII keywords can tell.
- The parser reads membership functions only through the guarded dispatcher (DslParser.MembershipFunction, DslParser.Parser.ParseMembershipFunction), the corrected form of the second finding. The unguarded one is modelled as DslMemberships.Dispatch with AsWritten, and DslMemberships.GuardAgrees relates the two.
- Custom membership parsers: the table maps token kinds to the four built-in parsers only. The ParseMembershipFunc interface wrapper is not modelled.
- tokenize's error result is never produced by the source, and the model's Tokenize has none.
- Engine.Infer returns Results by reference, and the context's maps are shared with it; the model copies values, so aliasing is not modelled. Pointers to Variable, Term and Rule are values.
- The Parser methods split some Go functions into steps (ParseRuleAfterIf, ParseVariableAfterOpen, FinishVariable, SkipPast, ParseNegation, ParseClosed). Each step follows the same branches in the same order.
- Accessors that only return a field (Name, UniverseMin, Premise, Conclusion, Term.Name, Result.Term and the like) are the datatype and class fields themselves.
- defuzzify.go, cmd/, misc/ and dsl/dsl.go are not part of this model.

## Findings

| source | as written | input that shows it | evidently intended | confidence | as-written member | corrected member |
|---|---|---|---|---|---|---|
| dsl/api.go:26-29 | ParseRulesAndVariables builds its Parser with only the tokens and cursor 0, so the membership table is empty and every TERM fails as an unknown membership function type | `DEFINE t ( TERM low LINEAR ( 0 , 10 ) ) ;` gives two errors, an unknown type and then a rule not starting with IF, both at LINEAR, where dsl/dsl_variables_test.go:10-20 expects the variable | the parser is given `DefaultMemberships` (dsl/membership.go:61-66) | not executed | DslApi.ParseRulesAndVariablesAsWritten, DslApi.OneLinearTermEmpty, DslApi.AsWrittenTermless | DslApi.ParseRulesAndVariables, DslApi.OneLinearTermDefault |
| dsl/membership.go:29 | the dispatcher closure reads `tokens[current]` without a bounds check; parseMembershipFunction guards only its own first call, and ParseInverted (dsl/membership.go:297) calls the closure again | a term ending in `INVERTED (` as the last two tokens reads one past the end of the tokens and panics. This needs a table holding INVERTED, so it shows only once the first finding is corrected: through the entry point as written the table is empty, and INVERTED is an unknown type (DslMemberships.UnknownFunction, DslMemberships.EmptyTableReadsNothing) | the missing keyword is reported like the guarded first call, as "expected membership function type" at the last token | not executed | DslMemberships.Dispatch with AsWritten, DslMemberships.InvertedAtEnd | DslMemberships.Dispatch with Guarded, DslMemberships.GuardAgrees, used by DslParser.MembershipFunction and DslParser.Parser.ParseMembershipFunction |
