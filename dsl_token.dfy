/**
 * The lexer of the rule language (dsl/token.go): the text without its comments is split into
 * lines, the punctuation `; ( ) ,` is padded with spaces, each line is split into words, and
 * each word becomes a token of a kind decided case-insensitively, with its line and the column
 * of the word's first occurrence in the padded line. The records of dsl/position.go and the
 * message and position of a dsl/errors.go ParseError live here too.
 */
module DslTokens {
  import opened DslComments

  /** A 1-based line and column. */
  datatype Position = Position(line: int, column: int)

  /** A syntax error: its message and where it was found. */
  datatype ParseError = ParseError(msg: Message, pos: Position)

  datatype Ordinal = First | Second | Third | Fourth

  /**
   * The messages the parser reports, one constructor per message of dsl/membership.go and
   * dsl/parser.go; `Text` spells each one exactly as the Go code does.
   */
  datatype Message =
    | InvalidNumber(text: string)
    | OpenAfter(kind: Kind)
    | MissingParameter(ordinal: Ordinal, kind: Kind)
    | CommaBetween
    | CloseAfterParameters(kind: Kind)
    | CloseAfterInverted
    | UnknownType(text: string)
    | MissingFunction
    | MissingVariableName
    | MissingIs
    | MissingTermAfterIs
    | MissingClosingParen
    | RuleStart(found: string)
    | MissingThen
    | MissingSemicolon
    | MissingTermName
    | MissingTerm
    | MissingDefinedName
    | OpenAfterName
    | CloseDefinition
    | SemicolonAfterDefinition

  function OrdinalText(o: Ordinal): string {
    match o
    case First => "first"
    case Second => "second"
    case Third => "third"
    case Fourth => "fourth"
  }

  /** The message text, as the Go parser formats it. */
  function Text(m: Message): string {
    match m
    case InvalidNumber(text) => "invalid number: " + text
    case OpenAfter(k) => "expected ( after " + (if k == VARIABLE then "" else Spelling(k))
    case MissingParameter(o, k) =>
      "expected " + OrdinalText(o) + " parameter for " + (if k == VARIABLE then "" else Spelling(k))
    case CommaBetween => "expected , between parameters"
    case CloseAfterParameters(k) =>
      "expected ) after " + (if k == VARIABLE then "" else Spelling(k)) + " parameters"
    case CloseAfterInverted => "expected ) after INVERTED function"
    case UnknownType(text) => "unknown membership function type: " + text
    case MissingFunction => "expected membership function type"
    case MissingVariableName => "expected variable name"
    case MissingIs => "expected IS after variable"
    case MissingTermAfterIs => "expected term name after IS"
    case MissingClosingParen => "missing closing parenthesis"
    case RuleStart(found) => "expected rule to start with IF, found " + found
    case MissingThen => "expected THEN after premise"
    case MissingSemicolon => "missing semicolon at end of rule"
    case MissingTermName => "expected term name"
    case MissingTerm => "expected TERM in variable definition"
    case MissingDefinedName => "expected variable name after DEFINE"
    case OpenAfterName => "expected ( after variable name"
    case CloseDefinition => "expected ) at end of variable definition"
    case SemicolonAfterDefinition => "expected ; after variable definition"
  }

  datatype Kind =
    | IF | IS | THEN | AND | OR | NOT | SEMI | VARIABLE | TERM | LPAREN | RPAREN
    | DEFINE | COMMA | LINEAR | TRIANGULAR | TRAPEZOID | INVERTED

  datatype Token = Token(kind: Kind, value: string, pos: Position)

  /** unicode.IsSpace, as strings.Fields and strings.TrimSpace use it. */
  predicate IsSpace(c: char) {
    var n := c as int;
    n == 0x20 || 0x09 <= n <= 0x0D || n == 0x85 || n == 0xA0 || n == 0x1680 ||
    0x2000 <= n <= 0x200A || n == 0x2028 || n == 0x2029 || n == 0x202F || n == 0x205F || n == 0x3000
  }

  /** The punctuation that always forms a token of its own. */
  predicate Special(c: char) {
    c == ';' || c == '(' || c == ')' || c == ','
  }

  /** strings.TrimSpace(line) == "". */
  predicate Whitespace(line: string) {
    forall i :: 0 <= i < |line| ==> IsSpace(line[i])
  }

  /** strings.Split(s, "\n"): the pieces between newlines, one more than there are newlines. */
  function Lines(s: string): (ls: seq<string>)
    ensures |ls| > 0
    decreases |s|
  {
    var k := LineEnd(s);
    if k == |s| then [s] else [s[..k]] + Lines(s[k + 1..])
  }

  /**
   * The four replacements of `;`, `(`, `)` and `,` by the same character between two spaces.
   * They insert only spaces, so doing them one after the other is doing them together.
   */
  function Pad(s: string): string {
    if s == [] then [] else (if Special(s[0]) then [' ', s[0], ' '] else [s[0]]) + Pad(s[1..])
  }

  /** The length of the run of non-space characters that starts `s`. */
  function WordEnd(s: string): (k: nat)
    ensures k <= |s|
    ensures forall j :: 0 <= j < k ==> !IsSpace(s[j])
    ensures k < |s| ==> IsSpace(s[k])
  {
    if s == [] || IsSpace(s[0]) then 0 else 1 + WordEnd(s[1..])
  }

  /** strings.Fields: the maximal runs of non-space characters, in order. */
  function Fields(s: string): seq<string>
    decreases |s|
  {
    if s == [] then []
    else if IsSpace(s[0]) then Fields(s[1..])
    else
      var k := WordEnd(s);
      [s[..k]] + Fields(s[k..])
  }

  /** strings.Index: the first index at which `n` occurs in `h`, or -1. */
  function IndexOf(h: string, n: string): int
    decreases |h|
  {
    if |n| <= |h| && h[..|n|] == n then 0
    else if h == [] then -1
    else
      var r := IndexOf(h[1..], n);
      if r < 0 then -1 else r + 1
  }

  /**
   * unicode.ToUpper, as far as matching the ASCII keywords can tell: `a`-`z`, and the two
   * letters whose upper case is ASCII, dotless i (U+0131) and long s (U+017F).
   */
  function UpperChar(c: char): char {
    if 'a' <= c <= 'z' then (c as int - 32) as char
    else if c as int == 0x131 then 'I'
    else if c as int == 0x17F then 'S'
    else c
  }

  function Upper(w: string): (u: string)
    ensures |u| == |w| && forall i :: 0 <= i < |w| ==> u[i] == UpperChar(w[i])
  {
    seq(|w|, i requires 0 <= i < |w| => UpperChar(w[i]))
  }

  /** The switch of tokenize's second pass, on the upper-cased word. */
  function KindOf(w: string): Kind {
    Keyword(Upper(w))
  }

  /** The kind spelt `u`, VARIABLE for any other word. */
  function Keyword(u: string): Kind {
    if u == "IF" then IF
    else if u == "IS" then IS
    else if u == "THEN" then THEN
    else if u == "AND" then AND
    else if u == "OR" then OR
    else if u == "NOT" then NOT
    else if u == "DEFINE" then DEFINE
    else if u == "TERM" then TERM
    else if u == "LINEAR" then LINEAR
    else if u == "TRIANGULAR" then TRIANGULAR
    else if u == "TRAPEZOID" then TRAPEZOID
    else if u == "INVERTED" then INVERTED
    else if u == "(" then LPAREN
    else if u == ")" then RPAREN
    else if u == ";" then SEMI
    else if u == "," then COMMA
    else VARIABLE
  }

  /** The spelling of every kind but VARIABLE, in upper case. */
  function Spelling(k: Kind): string
    requires k != VARIABLE
  {
    match k
    case IF => "IF"
    case IS => "IS"
    case THEN => "THEN"
    case AND => "AND"
    case OR => "OR"
    case NOT => "NOT"
    case DEFINE => "DEFINE"
    case TERM => "TERM"
    case LINEAR => "LINEAR"
    case TRIANGULAR => "TRIANGULAR"
    case TRAPEZOID => "TRAPEZOID"
    case INVERTED => "INVERTED"
    case LPAREN => "("
    case RPAREN => ")"
    case SEMI => ";"
    case COMMA => ","
  }

  /** The words of one line with their positions; a blank line has none. */
  function LineWords(line: string, n: nat): seq<(string, Position)> {
    if Whitespace(line) then []
    else
      var padded := Pad(line);
      var ws := Fields(padded);
      seq(|ws|, i requires 0 <= i < |ws| => (ws[i], Position(n, IndexOf(padded, ws[i]) + 1)))
  }

  /** tokenize's first pass over the lines, numbered from 1. */
  function Placements(lines: seq<string>): seq<(string, Position)>
    decreases |lines|
  {
    if lines == [] then []
    else Placements(lines[..|lines| - 1]) + LineWords(lines[|lines| - 1], |lines|)
  }

  /** tokenize: the classified words of the text without its comments. */
  function Tokens(text: string): seq<Token> {
    var ps := Placements(Lines(Strip(text)));
    seq(|ps|, i requires 0 <= i < |ps| => Token(KindOf(ps[i].0), ps[i].0, ps[i].1))
  }

  /**
   * tokenize: strips the comments, then walks the lines and their words recording each word
   * with its position, then classifies the recorded words. It never fails.
   */
  method Tokenize(input: string) returns (tokens: seq<Token>)
    ensures tokens == Tokens(input)
  {
    var cleaned := RemoveComments(input);
    var lines := Lines(cleaned);
    var placed: seq<(string, Position)> := [];
    for lineIndex := 0 to |lines|
      invariant placed == Placements(lines[..lineIndex])
    {
      assert lines[..lineIndex + 1][..lineIndex] == lines[..lineIndex];
      var line := lines[lineIndex];
      if Whitespace(line) {
        continue;
      }
      var words := PlaceLine(line, lineIndex + 1);
      placed := placed + words;
    }
    assert lines[..|lines|] == lines;
    tokens := Classify(placed);
  }

  /** The inner loop of tokenize: each word of the padded line with its column. */
  method PlaceLine(original: string, lineNum: nat) returns (placed: seq<(string, Position)>)
    requires !Whitespace(original)
    ensures placed == LineWords(original, lineNum)
  {
    var column := 1;
    var line := Pad(original);
    var words := Fields(line);
    ghost var all := LineWords(original, lineNum);
    assert |all| == |words|;
    placed := [];
    for w := 0 to |words|
      invariant placed == all[..w]
    {
      var word := words[w];
      var wordPos := IndexOf(line, word);
      FieldOccurs(line, word);
      if wordPos >= 0 {
        column := wordPos + 1;
      }
      LineWordAt(original, lineNum, w);
      PrefixStep(all, w, (word, Position(lineNum, column)));
      placed := placed + [(word, Position(lineNum, column))];
      column := column + |word| + 1;
    }
    assert all[..|words|] == all;
  }

  /** The `i`th word of a line, with the column of its first occurrence in the padded line. */
  lemma LineWordAt(line: string, n: nat, i: nat)
    requires !Whitespace(line) && i < |Fields(Pad(line))|
    ensures var ws := Fields(Pad(line));
      |LineWords(line, n)| == |ws| && LineWords(line, n)[i] == (ws[i], Position(n, IndexOf(Pad(line), ws[i]) + 1))
  {
  }

  /** A prefix grows by the next element. */
  lemma PrefixStep<T>(s: seq<T>, i: nat, x: T)
    requires i < |s| && s[i] == x
    ensures s[..i + 1] == s[..i] + [x]
  {
    assert s[..i + 1][i] == x;
  }

  /** The last loop of tokenize: each recorded word becomes a token of its kind. */
  method Classify(placed: seq<(string, Position)>) returns (tokens: seq<Token>)
    ensures |tokens| == |placed|
    ensures forall j :: 0 <= j < |placed| ==> tokens[j] == Token(KindOf(placed[j].0), placed[j].0, placed[j].1)
  {
    tokens := [];
    for k := 0 to |placed|
      invariant |tokens| == k && forall j :: 0 <= j < k ==> tokens[j] == Token(KindOf(placed[j].0), placed[j].0, placed[j].1)
    {
      var word, pos := placed[k].0, placed[k].1;
      tokens := tokens + [Token(KindOf(word), word, pos)];
    }
  }

  // ---------------------------------------------------------------------------------
  // Words and their occurrences

  /** `w` is a maximal run of non-space characters of `s`, starting at `a`. */
  predicate RunAt(s: string, a: int, w: string) {
    0 <= a && a + |w| <= |s| && s[a..a + |w|] == w && |w| > 0 &&
    (forall j :: 0 <= j < |w| ==> !IsSpace(w[j])) &&
    (a == 0 || IsSpace(s[a - 1])) && (a + |w| == |s| || IsSpace(s[a + |w|]))
  }

  /** A maximal run of a suffix is one of the whole text when the suffix starts after a space. */
  lemma RunShift(s: string, d: nat, a: int, w: string)
    requires d <= |s| && RunAt(s[d..], a, w)
    requires d == 0 || a > 0 || IsSpace(s[d - 1])
    ensures RunAt(s, a + d, w)
  {
    assert s[a + d..a + d + |w|] == s[d..][a..a + |w|];
    if a > 0 {
      assert s[a + d - 1] == s[d..][a - 1];
    }
    if a + d + |w| < |s| {
      assert s[a + d + |w|] == s[d..][a + |w|];
    }
  }

  /** Every field is a non-empty maximal run of non-space characters of the line. */
  lemma {:induction false} FieldsAreRuns(s: string)
    ensures forall w :: w in Fields(s) ==> exists a :: RunAt(s, a, w)
    decreases |s|
  {
    if s == [] {
    } else if IsSpace(s[0]) {
      FieldsAreRuns(s[1..]);
      assert Fields(s) == Fields(s[1..]);
      forall w | w in Fields(s) ensures exists a :: RunAt(s, a, w) {
        var a :| RunAt(s[1..], a, w);
        RunShift(s, 1, a, w);
      }
    } else {
      var k := WordEnd(s);
      FieldsAreRuns(s[k..]);
      assert s[0..k] == s[..k];
      assert RunAt(s, 0, s[..k]);
      forall w | w in Fields(s[k..]) ensures exists a :: RunAt(s, a, w) {
        var a :| RunAt(s[k..], a, w);
        RunShift(s, k, a, w);
      }
    }
  }

  /** `n` occurs in `h` at index `a`. */
  predicate OccursAt(h: string, n: string, a: int) {
    0 <= a && a + |n| <= |h| && h[a..a + |n|] == n
  }

  /** strings.Index returns an index at which the word occurs, when it returns one. */
  lemma {:induction false} IndexOfFound(h: string, n: string)
    ensures IndexOf(h, n) >= 0 ==> OccursAt(h, n, IndexOf(h, n))
    decreases |h|
  {
    if !(|n| <= |h| && h[..|n|] == n) && h != [] {
      IndexOfFound(h[1..], n);
      var r := IndexOf(h[1..], n);
      if r >= 0 {
        assert h[1..][r..r + |n|] == h[r + 1..r + 1 + |n|];
      }
    }
  }

  /** strings.Index finds the first occurrence, and -1 only when there is none. */
  lemma {:induction false} IndexOfFirst(h: string, n: string, a: int)
    requires OccursAt(h, n, a)
    ensures 0 <= IndexOf(h, n) <= a
    decreases |h|
  {
    if !(|n| <= |h| && h[..|n|] == n) {
      assert a > 0;
      assert h[1..][a - 1..a - 1 + |n|] == h[a..a + |n|];
      IndexOfFirst(h[1..], n, a - 1);
    }
  }

  /** A field of a line occurs in it, so its column is always found. */
  lemma FieldOccurs(s: string, w: string)
    requires w in Fields(s)
    ensures IndexOf(s, w) >= 0
  {
    FieldsAreRuns(s);
    var a :| RunAt(s, a, w);
    IndexOfFirst(s, w, a);
  }

  /** In a padded line every punctuation character has a space on both sides. */
  lemma {:induction false} PadIsolates(s: string)
    ensures forall i :: 0 <= i < |Pad(s)| && Special(Pad(s)[i]) ==>
      0 < i < |Pad(s)| - 1 && Pad(s)[i - 1] == ' ' && Pad(s)[i + 1] == ' '
  {
    if s != [] {
      PadIsolates(s[1..]);
      var head := if Special(s[0]) then [' ', s[0], ' '] else [s[0]];
      var q := Pad(s[1..]);
      var p := Pad(s);
      assert p == head + q;
      forall i | 0 <= i < |p| && Special(p[i]) ensures 0 < i < |p| - 1 && p[i - 1] == ' ' && p[i + 1] == ' ' {
        if i >= |head| {
          var k := i - |head|;
          assert p[i] == q[k] && Special(q[k]);
          assert 0 < k < |q| - 1 && q[k - 1] == ' ' && q[k + 1] == ' ';
          assert p[i - 1] == q[k - 1] && p[i + 1] == q[k + 1];
        }
      }
    }
  }

  /** The characters next to a character of a maximal run are not spaces, inside the run. */
  lemma RunNeighbours(p: string, a: int, w: string, j: nat)
    requires RunAt(p, a, w) && j < |w|
    ensures p[a + j] == w[j]
    ensures j > 0 ==> !IsSpace(p[a + j - 1])
    ensures j < |w| - 1 ==> !IsSpace(p[a + j + 1])
  {
    assert p[a..a + |w|][j] == w[j];
    if j > 0 {
      assert p[a..a + |w|][j - 1] == w[j - 1];
    }
    if j < |w| - 1 {
      assert p[a..a + |w|][j + 1] == w[j + 1];
    }
  }

  /** A word of a padded line that holds a punctuation character is that character alone. */
  lemma SpecialStandsAlone(line: string, w: string, j: nat)
    requires w in Fields(Pad(line)) && j < |w| && Special(w[j])
    ensures w == [w[j]]
  {
    var p := Pad(line);
    FieldsAreRuns(p);
    var a :| RunAt(p, a, w);
    RunNeighbours(p, a, w, j);
    PadIsolates(line);
    assert 0 < a + j < |p| - 1 && IsSpace(p[a + j - 1]) && IsSpace(p[a + j + 1]);
  }

  // ---------------------------------------------------------------------------------
  // Properties of tokenize

  /** What the first pass records for each word: its line, the word, and its first column. */
  ghost predicate Placed(lines: seq<string>, p: (string, Position)) {
    1 <= p.1.line <= |lines| &&
    p.0 in Fields(Pad(lines[p.1.line - 1])) &&
    p.1.column == IndexOf(Pad(lines[p.1.line - 1]), p.0) + 1
  }

  lemma {:induction false} PlacementsPlaced(lines: seq<string>)
    ensures forall i :: 0 <= i < |Placements(lines)| ==> Placed(lines, Placements(lines)[i])
    ensures forall i, j :: 0 <= i < j < |Placements(lines)| ==>
      Placements(lines)[i].1.line <= Placements(lines)[j].1.line
    decreases |lines|
  {
    if lines != [] {
      var init, last := lines[..|lines| - 1], lines[|lines| - 1];
      PlacementsPlaced(init);
      var ps, ws := Placements(init), LineWords(last, |lines|);
      assert Placements(lines) == ps + ws;
      forall i | 0 <= i < |ps| ensures Placed(lines, ps[i]) && ps[i].1.line <= |init| {
        assert Placed(init, ps[i]);
        assert lines[ps[i].1.line - 1] == init[ps[i].1.line - 1];
      }
      forall i | 0 <= i < |ws| ensures Placed(lines, ws[i]) && ws[i].1.line == |lines| {
      }
    }
  }

  /**
   * Every token has a non-empty value without whitespace, a punctuation character only as a
   * whole token, the kind its value names, a 1-based line, and as column 1 + the first index
   * of its value in its padded line; lines never decrease along the tokens, and two tokens
   * with the same value on the same line share their column.
   */
  lemma TokenFacts(text: string)
    ensures var ts := Tokens(text);
      forall i :: 0 <= i < |ts| ==>
        |ts[i].value| > 0 &&
        (forall j :: 0 <= j < |ts[i].value| ==> !IsSpace(ts[i].value[j])) &&
        (forall j :: 0 <= j < |ts[i].value| && Special(ts[i].value[j]) ==> |ts[i].value| == 1) &&
        ts[i].kind == KindOf(ts[i].value) &&
        ts[i].pos.line >= 1 && ts[i].pos.column >= 1
    ensures var ts := Tokens(text);
      forall i, j :: 0 <= i < j < |ts| ==> ts[i].pos.line <= ts[j].pos.line
    ensures var ts := Tokens(text);
      forall i, j :: 0 <= i < |ts| && 0 <= j < |ts| && ts[i].pos.line == ts[j].pos.line && ts[i].value == ts[j].value ==>
        ts[i].pos.column == ts[j].pos.column
  {
    var lines := Lines(Strip(text));
    var ps := Placements(lines);
    var ts := Tokens(text);
    PlacementsPlaced(lines);
    forall i | 0 <= i < |ts|
      ensures |ts[i].value| > 0 && (forall j :: 0 <= j < |ts[i].value| ==> !IsSpace(ts[i].value[j]))
      ensures forall j :: 0 <= j < |ts[i].value| && Special(ts[i].value[j]) ==> |ts[i].value| == 1
      ensures ts[i].pos.column >= 1
    {
      assert Placed(lines, ps[i]);
      var padded := Pad(lines[ps[i].1.line - 1]);
      FieldsAreRuns(padded);
      FieldOccurs(padded, ps[i].0);
      forall j | 0 <= j < |ts[i].value| && Special(ts[i].value[j]) ensures |ts[i].value| == 1 {
        SpecialStandsAlone(lines[ps[i].1.line - 1], ps[i].0, j);
      }
    }
    forall i, j | 0 <= i < |ts| && 0 <= j < |ts| && ts[i].pos.line == ts[j].pos.line && ts[i].value == ts[j].value
      ensures ts[i].pos.column == ts[j].pos.column
    {
      assert Placed(lines, ps[i]) && Placed(lines, ps[j]);
    }
  }

  /** The kind of a word is its upper-cased spelling's keyword, else VARIABLE: a numeral too. */
  lemma KindOfKeywords(w: string, k: Kind)
    requires k != VARIABLE
    ensures KindOf(w) == k <==> Upper(w) == Spelling(k)
  {
    KeywordSpelling(Upper(w), k);
  }

  lemma KeywordSpelling(u: string, k: Kind)
    requires k != VARIABLE
    ensures Keyword(u) == k <==> u == Spelling(k)
  {
    if Keyword(u) == k {
      KeywordSpelt(u);
    } else {
      SpellingKeyword(k);
    }
  }

  /** Every word of a kind other than VARIABLE is that kind's spelling. */
  lemma KeywordSpelt(u: string)
    requires Keyword(u) != VARIABLE
    ensures u == Spelling(Keyword(u))
  {
  }

  /** Each spelling is read back as its kind. */
  lemma SpellingKeyword(k: Kind)
    requires k != VARIABLE
    ensures Keyword(Spelling(k)) == k
  {
  }

  /** Words spelt alike up to case have the same kind. */
  lemma CaseInsensitive(w: string, v: string)
    requires Upper(w) == Upper(v)
    ensures KindOf(w) == KindOf(v)
  {
  }

  /** Each line of a text is made of characters of the text. */
  lemma {:induction false} LinesFromText(s: string)
    ensures forall l :: l in Lines(s) ==> forall i :: 0 <= i < |l| ==> l[i] in s
    decreases |s|
  {
    var k := LineEnd(s);
    if k < |s| {
      LinesFromText(s[k + 1..]);
      forall l | l in Lines(s) ensures forall i :: 0 <= i < |l| ==> l[i] in s {
        if l != s[..k] {
          assert l in Lines(s[k + 1..]);
          forall i | 0 <= i < |l| ensures l[i] in s {
            assert l[i] in s[k + 1..];
          }
        }
      }
    }
  }

  lemma {:induction false} BlankLinesNoPlacements(lines: seq<string>)
    requires forall l :: l in lines ==> Whitespace(l)
    ensures Placements(lines) == []
    decreases |lines|
  {
    if lines != [] {
      assert lines[|lines| - 1] in lines;
      assert forall l :: l in lines[..|lines| - 1] ==> l in lines;
      BlankLinesNoPlacements(lines[..|lines| - 1]);
    }
  }

  /** A text that is whitespace once its comments are removed has no token. */
  lemma NoTokensFromBlankText(text: string)
    requires forall i :: 0 <= i < |Strip(text)| ==> IsSpace(Strip(text)[i])
    ensures Tokens(text) == []
  {
    var s := Strip(text);
    LinesFromText(s);
    forall l | l in Lines(s) ensures Whitespace(l) {
      forall i | 0 <= i < |l| ensures IsSpace(l[i]) {
        var c := l[i];
        assert c in s;
        var j :| 0 <= j < |s| && s[j] == c;
      }
    }
    BlankLinesNoPlacements(Lines(s));
  }

  /** Comment text never yields tokens: a lone `//` comment, or a lone block comment. */
  lemma CommentsYieldNoTokens(c: string, b: string)
    requires LineStart(c) && forall i :: 0 <= i < |c| ==> c[i] != '\n'
    requires !HasClose(b)
    ensures Tokens(c) == []
    ensures Tokens("/*" + b + "*/") == []
  {
    TrailingLineComment(c);
    assert IsSpace('\n');
    NoTokensFromBlankText(c);
    BlockComment(b, []);
    assert "/*" + b + "*/" + [] == "/*" + b + "*/";
    var s := Strip("/*" + b + "*/");
    assert s == " " + Blank(b) + " ";
    forall i | 0 <= i < |s| ensures IsSpace(s[i]) {
      if 0 < i < |s| - 1 { assert s[i] == Blank(b)[i - 1]; }
    }
    NoTokensFromBlankText("/*" + b + "*/");
  }
}
