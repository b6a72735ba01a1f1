/**
 * The membership-function parsers of the rule language (dsl/membership.go), and parseFloat
 * (dsl/parser.go). Each parser threads a cursor into the token list and returns the
 * membership and the cursor just past it, or a positioned syntax error and the cursor where
 * the error was met. A dispatcher looks the function keyword up in a table and calls the
 * parser registered for it; INVERTED calls the dispatcher again for its operand.
 */
module DslMemberships {
  import opened Wrappers
  import opened MembershipFunctions
  import opened DslTokens

  /** strconv.ParseFloat(s, 64), a library call: the value of a numeral, None for other text. */
  type NumberParser = string -> Option<real>

  /** A value read from the tokens, with the cursor just past it. */
  datatype Parsed<+T> = Parsed(value: T, cursor: nat)

  /**
   * The `(value, cursor, error)` triple of a parser: a value and the cursor past it, or an
   * error and the cursor where it was met. Crash stands for a Go index-out-of-range panic.
   */
  datatype Parse<+T> = Done(value: T, cursor: nat) | Error(err: ParseError, cursor: nat) | Crash {
    predicate IsFailure() { !Done? }

    function PropagateFailure<U>(): Parse<U>
      requires !Done?
    {
      if Error? then Error(err, cursor) else Crash
    }

    function Extract(): Parsed<T>
      requires Done?
    {
      Parsed(value, cursor)
    }
  }

  /** parseFloat: the numeral's value, or "invalid number: s" at the numeral's position. */
  function ParseFloat(num: NumberParser, s: string, pos: Position): (r: Outcome<real, ParseError>)
    ensures r.Ok? <==> num(s).Some?
    ensures r.Ok? ==> r.value == num(s).value
    ensures r.Fail? ==> r.error == ParseError(InvalidNumber(s), pos)
  {
    match num(s)
    case Some(x) => Ok(x)
    case None => Fail(ParseError(InvalidNumber(s), pos))
  }

  /** One expected token: the cursor past it, or `msg` at the token before the cursor. */
  function Expect(tokens: seq<Token>, c: nat, k: Kind, msg: Message): (r: Parse<()>)
    requires 1 <= c <= |tokens|
    ensures r.Done? <==> c < |tokens| && tokens[c].kind == k
    ensures r.Done? ==> r.cursor == c + 1
    ensures r.Error? ==> r == Error(ParseError(msg, tokens[c - 1].pos), c)
    ensures !r.Crash? && Positioned(tokens, r)
  {
    if c < |tokens| && tokens[c].kind == k then Done((), c + 1)
    else Error(ParseError(msg, tokens[c - 1].pos), c)
  }

  /** One numeric parameter: a VARIABLE token whose text is a numeral. */
  function Parameter(num: NumberParser, tokens: seq<Token>, c: nat, msg: Message): (r: Parse<real>)
    requires 1 <= c <= |tokens|
    ensures r.Done? <==> c < |tokens| && tokens[c].kind == VARIABLE && num(tokens[c].value).Some?
    ensures r.Done? ==> r.value == num(tokens[c].value).value && r.cursor == c + 1
    ensures r.Error? ==> r.cursor == c
    ensures r.Error? && c < |tokens| && tokens[c].kind == VARIABLE ==>
      r.err == ParseError(InvalidNumber(tokens[c].value), tokens[c].pos)
    ensures r.Error? && !(c < |tokens| && tokens[c].kind == VARIABLE) ==> r.err == ParseError(msg, tokens[c - 1].pos)
    ensures !r.Crash? && Positioned(tokens, r)
  {
    if !(c < |tokens| && tokens[c].kind == VARIABLE) then Error(ParseError(msg, tokens[c - 1].pos), c)
    else
      match ParseFloat(num, tokens[c].value, tokens[c].pos)
      case Ok(x) => Done(x, c + 1)
      case Fail(e) => Error(e, c)
  }

  /** What LINEAR(x1, x2) builds: a rising ramp, a falling one as an inverted rising one, or a step. */
  function LinearShape(x1: real, x2: real): Membership {
    if x1 < x2 then Linear(x1, x2)
    else if x1 > x2 then Inverted(Linear(x2, x1))
    else Step(x1)
  }

  /** ParseLinear: `( x1 , x2 )`. */
  function ParseLinear(num: NumberParser, tokens: seq<Token>, c: nat): (r: Parse<Membership>)
    requires 1 <= c <= |tokens|
    ensures !r.Crash? && c <= r.cursor <= |tokens|
  {
    var open :- Expect(tokens, c, LPAREN, OpenAfter(LINEAR));
    var x1 :- Parameter(num, tokens, open.cursor, MissingParameter(First, LINEAR));
    var comma :- Expect(tokens, x1.cursor, COMMA, CommaBetween);
    var x2 :- Parameter(num, tokens, comma.cursor, MissingParameter(Second, LINEAR));
    var close :- Expect(tokens, x2.cursor, RPAREN, CloseAfterParameters(LINEAR));
    Done(LinearShape(x1.value, x2.value), close.cursor)
  }

  /** ParseTriangular: `( x1 , x2 , x3 )`. */
  function ParseTriangular(num: NumberParser, tokens: seq<Token>, c: nat): (r: Parse<Membership>)
    requires 1 <= c <= |tokens|
    ensures !r.Crash? && c <= r.cursor <= |tokens|
  {
    var open :- Expect(tokens, c, LPAREN, OpenAfter(TRIANGULAR));
    var x1 :- Parameter(num, tokens, open.cursor, MissingParameter(First, TRIANGULAR));
    var comma1 :- Expect(tokens, x1.cursor, COMMA, CommaBetween);
    var x2 :- Parameter(num, tokens, comma1.cursor, MissingParameter(Second, TRIANGULAR));
    var comma2 :- Expect(tokens, x2.cursor, COMMA, CommaBetween);
    var x3 :- Parameter(num, tokens, comma2.cursor, MissingParameter(Third, TRIANGULAR));
    var close :- Expect(tokens, x3.cursor, RPAREN, CloseAfterParameters(TRIANGULAR));
    Done(Triangular(x1.value, x2.value, x3.value), close.cursor)
  }

  /** ParseTrapezoid: `( x1 , x2 , x3 , x4 )`. */
  function ParseTrapezoid(num: NumberParser, tokens: seq<Token>, c: nat): (r: Parse<Membership>)
    requires 1 <= c <= |tokens|
    ensures !r.Crash? && c <= r.cursor <= |tokens|
  {
    var open :- Expect(tokens, c, LPAREN, OpenAfter(TRAPEZOID));
    var x1 :- Parameter(num, tokens, open.cursor, MissingParameter(First, TRAPEZOID));
    var comma1 :- Expect(tokens, x1.cursor, COMMA, CommaBetween);
    var x2 :- Parameter(num, tokens, comma1.cursor, MissingParameter(Second, TRAPEZOID));
    var comma2 :- Expect(tokens, x2.cursor, COMMA, CommaBetween);
    var x3 :- Parameter(num, tokens, comma2.cursor, MissingParameter(Third, TRAPEZOID));
    var comma3 :- Expect(tokens, x3.cursor, COMMA, CommaBetween);
    var x4 :- Parameter(num, tokens, comma3.cursor, MissingParameter(Fourth, TRAPEZOID));
    var close :- Expect(tokens, x4.cursor, RPAREN, CloseAfterParameters(TRAPEZOID));
    Done(Trapezoid(x1.value, x2.value, x3.value, x4.value), close.cursor)
  }

  /** The parsers a table can register: the four of DefaultMemberships. */
  datatype MembershipParser = LinearParser | TriangularParser | TrapezoidParser | InvertedParser

  /** The membership table of a Parser, keyed by the kind of the function keyword. */
  type MembershipTable = map<Kind, MembershipParser>

  /** DefaultMemberships: LINEAR, TRIANGULAR, TRAPEZOID and INVERTED. */
  const DefaultMemberships: MembershipTable := map[
    LINEAR := LinearParser, TRIANGULAR := TriangularParser,
    TRAPEZOID := TrapezoidParser, INVERTED := InvertedParser]

  /**
   * The dispatcher closure of parseMembershipFunction reads the keyword token without a bound
   * check (AsWritten); Guarded reports the missing keyword as the term parser does.
   */
  datatype Dispatcher = AsWritten | Guarded

  /** The dispatcher: the keyword's parser from the table, called just past the keyword. */
  function Dispatch(d: Dispatcher, table: MembershipTable, num: NumberParser, tokens: seq<Token>, c: nat): (r: Parse<Membership>)
    requires 1 <= c <= |tokens|
    ensures r.Done? ==> c < r.cursor <= |tokens|
    ensures r.Error? ==> c <= r.cursor <= |tokens|
    ensures d == Guarded ==> !r.Crash?
    decreases |tokens| - c
  {
    if c == |tokens| then
      if d == AsWritten then Crash
      else Error(ParseError(MissingFunction, tokens[c - 1].pos), c)
    else
      var t := tokens[c];
      if t.kind !in table then
        Error(ParseError(UnknownType(t.value), t.pos), c + 1)
      else
        match table[t.kind]
        case LinearParser => ParseLinear(num, tokens, c + 1)
        case TriangularParser => ParseTriangular(num, tokens, c + 1)
        case TrapezoidParser => ParseTrapezoid(num, tokens, c + 1)
        case InvertedParser => ParseInverted(d, table, num, tokens, c + 1)
  }

  /** ParseInverted: `( m )` for one membership `m` read by the dispatcher. */
  function ParseInverted(d: Dispatcher, table: MembershipTable, num: NumberParser, tokens: seq<Token>, c: nat): (r: Parse<Membership>)
    requires 1 <= c <= |tokens|
    ensures r.Done? ==> c < r.cursor <= |tokens|
    ensures r.Error? ==> c <= r.cursor <= |tokens|
    ensures d == Guarded ==> !r.Crash?
    decreases |tokens| - c
  {
    var open :- Expect(tokens, c, LPAREN, OpenAfter(INVERTED));
    var inner :- Dispatch(d, table, num, tokens, open.cursor);
    var close :- Expect(tokens, inner.cursor, RPAREN, CloseAfterInverted);
    Done(Inverted(inner.value), close.cursor)
  }

  // ---------------------------------------------------------------------------------
  // Properties

  /** The number the i-th token stands for, 0 where it stands for none. */
  function Number(num: NumberParser, tokens: seq<Token>, i: nat): real {
    if i < |tokens| && num(tokens[i].value).Some? then num(tokens[i].value).value else 0.0
  }

  /**
   * LINEAR succeeds exactly on `( n , n )` with two numerals, takes its parameters in source
   * order and leaves the cursor just past `)`.
   */
  lemma LinearExact(num: NumberParser, tokens: seq<Token>, c: nat)
    requires 1 <= c <= |tokens|
    ensures ParseLinear(num, tokens, c).Done? <==>
      c + 5 <= |tokens| && tokens[c].kind == LPAREN && tokens[c + 1].kind == VARIABLE &&
      tokens[c + 2].kind == COMMA && tokens[c + 3].kind == VARIABLE && tokens[c + 4].kind == RPAREN &&
      num(tokens[c + 1].value).Some? && num(tokens[c + 3].value).Some?
    ensures ParseLinear(num, tokens, c).Done? ==>
      ParseLinear(num, tokens, c) == Done(LinearShape(Number(num, tokens, c + 1), Number(num, tokens, c + 3)), c + 5)
  {
  }

  /** TRIANGULAR succeeds exactly on `( n , n , n )` and keeps the parameters in source order. */
  lemma TriangularExact(num: NumberParser, tokens: seq<Token>, c: nat)
    requires 1 <= c <= |tokens|
    ensures ParseTriangular(num, tokens, c).Done? <==>
      c + 7 <= |tokens| && tokens[c].kind == LPAREN && tokens[c + 1].kind == VARIABLE &&
      tokens[c + 2].kind == COMMA && tokens[c + 3].kind == VARIABLE && tokens[c + 4].kind == COMMA &&
      tokens[c + 5].kind == VARIABLE && tokens[c + 6].kind == RPAREN &&
      num(tokens[c + 1].value).Some? && num(tokens[c + 3].value).Some? && num(tokens[c + 5].value).Some?
    ensures ParseTriangular(num, tokens, c).Done? ==>
      ParseTriangular(num, tokens, c) ==
        Done(Triangular(Number(num, tokens, c + 1), Number(num, tokens, c + 3), Number(num, tokens, c + 5)), c + 7)
  {
  }

  /** TRAPEZOID succeeds exactly on `( n , n , n , n )` and keeps the parameters in source order. */
  lemma TrapezoidExact(num: NumberParser, tokens: seq<Token>, c: nat)
    requires 1 <= c <= |tokens|
    ensures ParseTrapezoid(num, tokens, c).Done? <==>
      c + 9 <= |tokens| && tokens[c].kind == LPAREN && tokens[c + 1].kind == VARIABLE &&
      tokens[c + 2].kind == COMMA && tokens[c + 3].kind == VARIABLE && tokens[c + 4].kind == COMMA &&
      tokens[c + 5].kind == VARIABLE && tokens[c + 6].kind == COMMA && tokens[c + 7].kind == VARIABLE &&
      tokens[c + 8].kind == RPAREN &&
      num(tokens[c + 1].value).Some? && num(tokens[c + 3].value).Some? &&
      num(tokens[c + 5].value).Some? && num(tokens[c + 7].value).Some?
    ensures ParseTrapezoid(num, tokens, c).Done? ==>
      ParseTrapezoid(num, tokens, c) ==
        Done(Trapezoid(Number(num, tokens, c + 1), Number(num, tokens, c + 3),
                       Number(num, tokens, c + 5), Number(num, tokens, c + 7)), c + 9)
  {
  }

  /**
   * LINEAR(x1, x2) is 0 at x1 and 1 at x2 in either order (1 at both when they are equal), and
   * for x1 > x2 it falls from 1 at and below x2 to 0 at and above x1.
   */
  lemma LinearShapeEnds(x1: real, x2: real, x: real)
    ensures Value(LinearShape(x1, x2), x2) == 1.0
    ensures x1 != x2 ==> Value(LinearShape(x1, x2), x1) == 0.0
    ensures x1 > x2 && x <= x2 ==> Value(LinearShape(x1, x2), x) == 1.0
    ensures x1 > x2 && x >= x1 ==> Value(LinearShape(x1, x2), x) == 0.0
    ensures x1 > x2 && x2 <= x <= x1 ==> Value(LinearShape(x1, x2), x) == (x1 - x) / (x1 - x2)
    ensures 0.0 <= Value(LinearShape(x1, x2), x) <= 1.0
  {
    if x1 > x2 && x2 <= x <= x1 {
      var d, q := x1 - x2, (x - x2) / (x1 - x2);
      assert Value(Linear(x2, x1), x) == q;
      assert q * d == x - x2;
      assert x1 - x == (1.0 - q) * d;
    }
    ValueNormalised(LinearShape(x1, x2), x);
  }

  /** INVERTED succeeds exactly on `(`, one membership and `)`, and wraps that membership. */
  lemma InvertedWraps(d: Dispatcher, table: MembershipTable, num: NumberParser, tokens: seq<Token>, c: nat)
    requires 1 <= c <= |tokens|
    ensures var r := ParseInverted(d, table, num, tokens, c);
      r.Done? <==>
        c < |tokens| && tokens[c].kind == LPAREN &&
        (var inner := Dispatch(d, table, num, tokens, c + 1);
         inner.Done? && inner.cursor < |tokens| && tokens[inner.cursor].kind == RPAREN)
    ensures var r := ParseInverted(d, table, num, tokens, c);
      r.Done? ==>
        var inner := Dispatch(d, table, num, tokens, c + 1);
        r == Done(Inverted(inner.value), inner.cursor + 1)
  {
  }

  /** A keyword missing from the table is reported at the keyword, with the cursor past it. */
  lemma UnknownFunction(d: Dispatcher, table: MembershipTable, num: NumberParser, tokens: seq<Token>, c: nat)
    requires 1 <= c < |tokens| && tokens[c].kind !in table
    ensures Dispatch(d, table, num, tokens, c) ==
      Error(ParseError(UnknownType(tokens[c].value), tokens[c].pos), c + 1)
  {
  }

  /** With the default table, the four function keywords reach their parsers and nothing else does. */
  lemma DefaultDispatch(d: Dispatcher, num: NumberParser, tokens: seq<Token>, c: nat)
    requires 1 <= c < |tokens|
    ensures var k := tokens[c].kind;
      k in DefaultMemberships <==> k == LINEAR || k == TRIANGULAR || k == TRAPEZOID || k == INVERTED
    ensures tokens[c].kind == LINEAR ==> Dispatch(d, DefaultMemberships, num, tokens, c) == ParseLinear(num, tokens, c + 1)
    ensures tokens[c].kind == TRIANGULAR ==>
      Dispatch(d, DefaultMemberships, num, tokens, c) == ParseTriangular(num, tokens, c + 1)
    ensures tokens[c].kind == TRAPEZOID ==>
      Dispatch(d, DefaultMemberships, num, tokens, c) == ParseTrapezoid(num, tokens, c + 1)
    ensures tokens[c].kind == INVERTED ==>
      Dispatch(d, DefaultMemberships, num, tokens, c) == ParseInverted(d, DefaultMemberships, num, tokens, c + 1)
  {
  }

  /** With an empty table no membership function is ever read. */
  lemma EmptyTableReadsNothing(d: Dispatcher, num: NumberParser, tokens: seq<Token>, c: nat)
    requires 1 <= c <= |tokens|
    ensures !Dispatch(d, map[], num, tokens, c).Done?
    ensures c < |tokens| ==> Dispatch(d, map[], num, tokens, c).Error?
  {
  }

  /**
   * Every error is positioned at the token before the cursor it leaves, except an invalid
   * number, which is positioned at the numeral under the cursor.
   */
  predicate Positioned<T>(tokens: seq<Token>, r: Parse<T>) {
    r.Error? ==>
      1 <= r.cursor <= |tokens| &&
      (r.err.pos == tokens[r.cursor - 1].pos ||
       (r.cursor < |tokens| && r.err == ParseError(InvalidNumber(tokens[r.cursor].value), tokens[r.cursor].pos)))
  }

  lemma PositionedLinear(num: NumberParser, tokens: seq<Token>, c: nat)
    requires 1 <= c <= |tokens|
    ensures Positioned(tokens, ParseLinear(num, tokens, c))
  {
  }

  lemma PositionedTriangular(num: NumberParser, tokens: seq<Token>, c: nat)
    requires 1 <= c <= |tokens|
    ensures Positioned(tokens, ParseTriangular(num, tokens, c))
  {
  }

  lemma PositionedTrapezoid(num: NumberParser, tokens: seq<Token>, c: nat)
    requires 1 <= c <= |tokens|
    ensures Positioned(tokens, ParseTrapezoid(num, tokens, c))
  {
  }

  lemma {:induction false} PositionedDispatch(d: Dispatcher, table: MembershipTable, num: NumberParser, tokens: seq<Token>, c: nat)
    requires 1 <= c <= |tokens|
    ensures Positioned(tokens, Dispatch(d, table, num, tokens, c))
    decreases |tokens| - c, 1
  {
    if c < |tokens| && tokens[c].kind in table {
      PositionedLinear(num, tokens, c + 1);
      PositionedTriangular(num, tokens, c + 1);
      PositionedTrapezoid(num, tokens, c + 1);
      if table[tokens[c].kind] == InvertedParser {
        PositionedInverted(d, table, num, tokens, c + 1);
      }
    }
  }

  lemma {:induction false} PositionedInverted(d: Dispatcher, table: MembershipTable, num: NumberParser, tokens: seq<Token>, c: nat)
    requires 1 <= c <= |tokens|
    ensures Positioned(tokens, ParseInverted(d, table, num, tokens, c))
    decreases |tokens| - c, 0
  {
    if c < |tokens| && tokens[c].kind == LPAREN {
      PositionedDispatch(d, table, num, tokens, c + 1);
    }
  }

  /**
   * The unguarded dispatcher agrees with the guarded one except where it crashes, and it
   * crashes only where the guarded one reports the missing keyword at the last token.
   */
  lemma {:induction false} GuardAgrees(table: MembershipTable, num: NumberParser, tokens: seq<Token>, c: nat)
    requires 1 <= c <= |tokens|
    ensures !Dispatch(AsWritten, table, num, tokens, c).Crash? ==>
      Dispatch(AsWritten, table, num, tokens, c) == Dispatch(Guarded, table, num, tokens, c)
    ensures Dispatch(AsWritten, table, num, tokens, c).Crash? ==>
      Dispatch(Guarded, table, num, tokens, c) ==
        Error(ParseError(MissingFunction, tokens[|tokens| - 1].pos), |tokens|)
    decreases |tokens| - c, 1
  {
    if c < |tokens| && tokens[c].kind in table && table[tokens[c].kind] == InvertedParser {
      GuardAgreesInverted(table, num, tokens, c + 1);
    }
  }

  lemma {:induction false} GuardAgreesInverted(table: MembershipTable, num: NumberParser, tokens: seq<Token>, c: nat)
    requires 1 <= c <= |tokens|
    ensures !ParseInverted(AsWritten, table, num, tokens, c).Crash? ==>
      ParseInverted(AsWritten, table, num, tokens, c) == ParseInverted(Guarded, table, num, tokens, c)
    ensures ParseInverted(AsWritten, table, num, tokens, c).Crash? ==>
      ParseInverted(Guarded, table, num, tokens, c) ==
        Error(ParseError(MissingFunction, tokens[|tokens| - 1].pos), |tokens|)
    decreases |tokens| - c, 0
  {
    if c < |tokens| && tokens[c].kind == LPAREN {
      GuardAgrees(table, num, tokens, c + 1);
    }
  }

  /**
   * `INVERTED (` as the last two tokens: the dispatcher as written reads past the end of the
   * token list, where the guarded one reports the missing keyword.
   */
  lemma InvertedAtEnd(table: MembershipTable, num: NumberParser, tokens: seq<Token>, c: nat)
    requires 1 <= c && c + 2 == |tokens| && tokens[c].kind == INVERTED && tokens[c + 1].kind == LPAREN
    requires INVERTED in table && table[INVERTED] == InvertedParser
    ensures Dispatch(AsWritten, table, num, tokens, c) == Crash
    ensures Dispatch(Guarded, table, num, tokens, c) ==
      Error(ParseError(MissingFunction, tokens[c + 1].pos), c + 2)
  {
    assert Dispatch(AsWritten, table, num, tokens, c + 2) == Crash;
    assert ParseInverted(AsWritten, table, num, tokens, c + 1) == Crash;
    var e := Error(ParseError(MissingFunction, tokens[c + 1].pos), c + 2);
    assert Dispatch(Guarded, table, num, tokens, c + 2) == e;
    assert ParseInverted(Guarded, table, num, tokens, c + 1) == e;
  }
}
