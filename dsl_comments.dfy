/**
 * The comment stripper of the rule language (dsl/comments.go): `//` comments become spaces up
 * to their newline, block comments become spaces except for their newlines, and the two
 * delimiters of a block comment become one space each. Characters stand for Go's bytes.
 */
module DslComments {

  /** The index of the first newline of `s`, or |s| when there is none. */
  function LineEnd(s: string): (k: nat)
    ensures k <= |s|
    ensures forall j :: 0 <= j < k ==> s[j] != '\n'
    ensures k < |s| ==> s[k] == '\n'
  {
    if s == [] || s[0] == '\n' then 0 else 1 + LineEnd(s[1..])
  }

  function Spaces(n: nat): (r: string)
    ensures |r| == n && forall i :: 0 <= i < n ==> r[i] == ' '
  {
    seq(n, _ => ' ')
  }

  /** A block comment's body as written out: newlines kept, every other character a space. */
  function Blank(b: string): (r: string)
    ensures |r| == |b|
    ensures forall i :: 0 <= i < |b| ==> r[i] == (if b[i] == '\n' then '\n' else ' ')
  {
    seq(|b|, i requires 0 <= i < |b| => if b[i] == '\n' then '\n' else ' ')
  }

  predicate LineStart(s: string) { |s| >= 2 && s[0] == '/' && s[1] == '/' }

  predicate BlockStart(s: string) { |s| >= 2 && s[0] == '/' && s[1] == '*' }

  predicate BlockEnd(s: string) { |s| >= 2 && s[0] == '*' && s[1] == '/' }

  /** `*` directly followed by `/` somewhere in `b`. */
  predicate HasClose(b: string) {
    exists i :: 0 <= i < |b| - 1 && b[i] == '*' && b[i + 1] == '/'
  }

  /** What the stripper writes for the rest `s` of the input, outside any comment. */
  function Code(s: string): string
    decreases |s|, 1
  {
    if s == [] then []
    else if LineStart(s) then
      var k := LineEnd(s);
      if k == |s| then "\n" else Spaces(k) + "\n" + Code(s[k + 1..])
    else if BlockStart(s) then " " + Block(s[2..])
    else [s[0]] + Code(s[1..])
  }

  /** What the stripper writes for the rest `s` of the input, inside a block comment. */
  function Block(s: string): string
    decreases |s|, 0
  {
    if s == [] then []
    else if BlockEnd(s) then " " + Code(s[2..])
    else (if s[0] == '\n' then "\n" else " ") + Block(s[1..])
  }

  /** removeComments: the whole input read from outside any comment. */
  function Strip(s: string): string {
    Code(s)
  }

  /**
   * removeComments: a scan over the input with an index and a block-comment flag, writing
   * each character, its replacement, or the replacement of a whole `//` comment.
   */
  method RemoveComments(input: string) returns (output: string)
    ensures output == Strip(input)
  {
    output := "";
    var inBlock := false;
    var i := 0;
    ghost var pending := Code(input);
    ghost var all := Strip(input);
    while i < |input|
      invariant 0 <= i <= |input|
      invariant inBlock ==> pending == Block(input[i..])
      invariant !inBlock ==> pending == Code(input[i..])
      invariant output + pending == all
      decreases |input| - i
    {
      ghost var prev := output;
      if inBlock {
        if i + 1 < |input| && input[i] == '*' && input[i + 1] == '/' {
          BlockCloses(input, i);
          inBlock := false;
          i := i + 2;
          Advance(prev, " ", Code(input[i..]), pending, all);
          pending := Code(input[i..]);
          output := output + " ";
        } else {
          BlockGoesOn(input, i);
          ghost var written := if input[i] == '\n' then "\n" else " ";
          Advance(prev, written, Block(input[i + 1..]), pending, all);
          if input[i] == '\n' {
            output := output + "\n";
          } else {
            output := output + " ";
          }
          i := i + 1;
          pending := Block(input[i..]);
        }
      } else if i + 1 < |input| && input[i] == '/' && input[i + 1] == '/' {
        var endOfLine := LineEnd(input[i..]);
        LineCommentStep(input, i);
        if endOfLine == |input| - i {
          output := output + "\n";
          break;
        }
        AdvanceLine(prev, Spaces(endOfLine), Code(input[i + endOfLine + 1..]), pending, all);
        output := WriteSpaces(output, endOfLine);
        i := i + endOfLine;
        output := output + "\n";
        i := i + 1;
        pending := Code(input[i..]);
      } else if i + 1 < |input| && input[i] == '/' && input[i + 1] == '*' {
        BlockOpens(input, i);
        inBlock := true;
        i := i + 2;
        Advance(prev, " ", Block(input[i..]), pending, all);
        pending := Block(input[i..]);
        output := output + " ";
      } else {
        CodeGoesOn(input, i);
        Advance(prev, [input[i]], Code(input[i + 1..]), pending, all);
        output := output + [input[i]];
        i := i + 1;
        pending := Code(input[i..]);
      }
    }
    if i == |input| {
      assert input[i..] == [];
    }
  }

  /** The spaces that replace a `//` comment, written one by one. */
  method WriteSpaces(output: string, n: nat) returns (r: string)
    ensures r == output + Spaces(n)
  {
    r := output;
    for j := 0 to n
      invariant r == output + Spaces(j)
    {
      SpacesGrow(output, j);
      r := r + " ";
    }
  }

  /** One more space written after `Spaces(j)`. */
  lemma SpacesGrow(before: string, j: nat)
    ensures before + Spaces(j) + " " == before + Spaces(j + 1)
  {
    assert Spaces(j) + " " == Spaces(j + 1);
  }

  /** The invariant after writing the spaces and the newline of a `//` comment. */
  lemma AdvanceLine(prev: string, spaces: string, next: string, pending: string, all: string)
    requires prev + pending == all && pending == spaces + "\n" + next
    ensures (prev + spaces) + "\n" + next == all
  {
    Associative(prev, spaces + "\n", next);
    Associative(prev, spaces, "\n");
  }

  /** The invariant after writing `written`, the part of what was pending up to `next`. */
  lemma Advance(prev: string, written: string, next: string, pending: string, all: string)
    requires prev + pending == all && pending == written + next
    ensures (prev + written) + next == all
  {
    Associative(prev, written, next);
  }

  lemma Associative(a: string, b: string, c: string)
    ensures (a + b) + c == a + (b + c)
  {
  }

  lemma BlockCloses(input: string, i: nat)
    requires i + 1 < |input| && input[i] == '*' && input[i + 1] == '/'
    ensures Block(input[i..]) == " " + Code(input[i + 2..])
  {
    assert BlockEnd(input[i..]) && input[i..][2..] == input[i + 2..];
  }

  lemma BlockGoesOn(input: string, i: nat)
    requires i < |input| && !(i + 1 < |input| && input[i] == '*' && input[i + 1] == '/')
    ensures Block(input[i..]) == (if input[i] == '\n' then "\n" else " ") + Block(input[i + 1..])
  {
    assert !BlockEnd(input[i..]) && input[i..][1..] == input[i + 1..];
  }

  lemma LineCommentStep(input: string, i: nat)
    requires i + 1 < |input| && input[i] == '/' && input[i + 1] == '/'
    ensures var k := LineEnd(input[i..]);
      Code(input[i..]) == if k == |input| - i then "\n" else Spaces(k) + "\n" + Code(input[i + k + 1..])
  {
    var rest := input[i..];
    assert LineStart(rest);
    var k := LineEnd(rest);
    if k < |rest| {
      assert rest[k + 1..] == input[i + k + 1..];
    }
  }

  lemma BlockOpens(input: string, i: nat)
    requires i + 1 < |input| && input[i] == '/' && input[i + 1] == '*'
    ensures Code(input[i..]) == " " + Block(input[i + 2..])
  {
    assert BlockStart(input[i..]) && !LineStart(input[i..]) && input[i..][2..] == input[i + 2..];
  }

  lemma CodeGoesOn(input: string, i: nat)
    requires i < |input|
    requires !(i + 1 < |input| && input[i] == '/' && (input[i + 1] == '/' || input[i + 1] == '*'))
    ensures Code(input[i..]) == [input[i]] + Code(input[i + 1..])
  {
    assert !LineStart(input[i..]) && !BlockStart(input[i..]) && input[i..][1..] == input[i + 1..];
  }

  // ---------------------------------------------------------------------------------
  // Properties of removeComments

  /** Text without `/` is copied unchanged, and stripping then goes on after it. */
  lemma {:induction false} CopiedWithoutSlash(p: string, rest: string)
    requires forall i :: 0 <= i < |p| ==> p[i] != '/'
    ensures Code(p + rest) == p + Code(rest)
  {
    if p != [] {
      var s := p + rest;
      assert s[0] == p[0] && !LineStart(s) && !BlockStart(s);
      assert Code(s) == [s[0]] + Code(s[1..]);
      assert s[1..] == p[1..] + rest;
      CopiedWithoutSlash(p[1..], rest);
      assert p == [p[0]] + p[1..];
      Associative([p[0]], p[1..], Code(rest));
    } else {
      assert p + rest == rest && p + Code(rest) == Code(rest);
    }
  }

  /** A text without a `/` character is returned unchanged. */
  lemma NoSlashUnchanged(s: string)
    requires forall i :: 0 <= i < |s| ==> s[i] != '/'
    ensures Strip(s) == s
  {
    CopiedWithoutSlash(s, []);
    assert s + [] == s;
  }

  /**
   * A `//` comment ended by a newline becomes as many spaces as it has characters, followed
   * by the newline, so the columns of the line are kept.
   */
  lemma LineComment(c: string, rest: string)
    requires LineStart(c) && forall i :: 0 <= i < |c| ==> c[i] != '\n'
    ensures Code(c + "\n" + rest) == Spaces(|c|) + "\n" + Code(rest)
  {
    var s := c + "\n" + rest;
    assert s[..|c|] == c && s[|c|] == '\n';
    assert LineEnd(s) == |c| by { LineEndAt(s, |c|); }
    assert s[|c| + 1..] == rest;
  }

  /** An unterminated `//` comment ends the output with one newline; nothing after it is copied. */
  lemma TrailingLineComment(c: string)
    requires LineStart(c) && forall i :: 0 <= i < |c| ==> c[i] != '\n'
    ensures Code(c) == "\n"
  {
    LineEndAt(c, |c|);
  }

  lemma {:induction false} LineEndAt(s: string, k: nat)
    requires k <= |s| && (forall j :: 0 <= j < k ==> s[j] != '\n') && (k < |s| ==> s[k] == '\n')
    ensures LineEnd(s) == k
  {
    if k > 0 {
      LineEndAt(s[1..], k - 1);
    }
  }

  /**
   * Inside a block comment, everything up to the first `*` `/` is blanked (newlines kept):
   * an opening delimiter or a `//` in the body has no effect.
   */
  lemma {:induction false} BlockBody(b: string, rest: string)
    requires !HasClose(b)
    ensures Block(b + "*/" + rest) == Blank(b) + " " + Code(rest)
  {
    var s := b + "*/" + rest;
    if b == [] {
      assert s == "*/" + rest && s[2..] == rest;
    } else {
      assert !BlockEnd(s) by {
        if |b| >= 2 { assert !(b[0] == '*' && b[1] == '/'); }
      }
      assert s[1..] == b[1..] + "*/" + rest;
      BlockBody(b[1..], rest);
      assert Blank(b) == (if b[0] == '\n' then "\n" else " ") + Blank(b[1..]);
    }
  }

  /**
   * A block comment becomes one space for its opening delimiter, its body blanked with newlines kept, and one
   * space for the first `*` `/`, which closes it: block comments do not nest.
   */
  lemma BlockComment(b: string, rest: string)
    requires !HasClose(b)
    ensures Code("/*" + b + "*/" + rest) == " " + Blank(b) + " " + Code(rest)
  {
    var s := "/*" + b + "*/" + rest;
    assert BlockStart(s) && !LineStart(s);
    assert s[2..] == b + "*/" + rest;
    BlockBody(b, rest);
  }

  /** An unterminated block comment blanks the rest of the text, newlines kept. */
  lemma {:induction false} OpenBlock(b: string)
    requires !HasClose(b)
    ensures Block(b) == Blank(b)
  {
    if b != [] {
      assert !BlockEnd(b);
      OpenBlock(b[1..]);
      assert Blank(b) == (if b[0] == '\n' then "\n" else " ") + Blank(b[1..]);
    }
  }

  /** The stripper meets a `//` comment with no newline after it, outside any block comment. */
  predicate CodeCut(s: string)
    decreases |s|, 1
  {
    if s == [] then false
    else if LineStart(s) then
      var k := LineEnd(s);
      k == |s| || CodeCut(s[k + 1..])
    else if BlockStart(s) then BlockCut(s[2..])
    else CodeCut(s[1..])
  }

  predicate BlockCut(s: string)
    decreases |s|, 0
  {
    if s == [] then false
    else if BlockEnd(s) then CodeCut(s[2..])
    else BlockCut(s[1..])
  }

  function Newlines(s: string): nat {
    multiset(s)['\n']
  }

  /**
   * Every newline of the input, in or out of comments, is written; the only newline added is
   * the one that ends an unterminated trailing `//` comment.
   */
  lemma {:induction false} CodeNewlines(s: string)
    ensures Newlines(Code(s)) == Newlines(s) + (if CodeCut(s) then 1 else 0)
    decreases |s|, 1
  {
    if s == [] {
    } else if LineStart(s) {
      var k := LineEnd(s);
      if k < |s| {
        CodeNewlines(s[k + 1..]);
        LineNewlines(s, k);
      } else {
        NoNewlines(s);
        assert Code(s) == "\n" && CodeCut(s);
      }
    } else if BlockStart(s) {
      BlockNewlines(s[2..]);
      OpenNewlines(s);
    } else {
      CodeNewlines(s[1..]);
      CopyNewlines(s);
    }
  }

  /** A `//` comment ended by the newline at k: the count goes on after that newline. */
  lemma LineNewlines(s: string, k: nat)
    requires LineStart(s) && k == LineEnd(s) < |s|
    requires Newlines(Code(s[k + 1..])) == Newlines(s[k + 1..]) + (if CodeCut(s[k + 1..]) then 1 else 0)
    ensures Newlines(Code(s)) == Newlines(s) + (if CodeCut(s) then 1 else 0)
  {
    LineCase(s, k);
    NewlinesLine(s, k);
    NewlinesOut(k, Code(s[k + 1..]));
  }

  lemma LineCase(s: string, k: nat)
    requires LineStart(s) && k == LineEnd(s) < |s|
    ensures Code(s) == Spaces(k) + "\n" + Code(s[k + 1..]) && CodeCut(s) == CodeCut(s[k + 1..])
  {
  }

  lemma NewlinesLine(s: string, k: nat)
    requires k < |s| && s[k] == '\n' && forall j :: 0 <= j < k ==> s[j] != '\n'
    ensures Newlines(s) == 1 + Newlines(s[k + 1..])
  {
    NoNewlines(s[..k]);
    NewlinesSplitAt(s, k);
    NewlinesSplitAt(s[k..], 1);
    assert s[k..][..1] == "\n" && s[k..][1..] == s[k + 1..];
  }

  lemma NewlinesOut(k: nat, t: string)
    ensures Newlines(Spaces(k) + "\n" + t) == 1 + Newlines(t)
  {
    NoNewlines(Spaces(k));
    NewlinesAppend(Spaces(k) + "\n", t);
    NewlinesAppend(Spaces(k), "\n");
  }

  /** A block comment's opening delimiter: the count goes on inside the comment. */
  lemma OpenNewlines(s: string)
    requires BlockStart(s) && !LineStart(s)
    requires Newlines(Block(s[2..])) == Newlines(s[2..]) + (if BlockCut(s[2..]) then 1 else 0)
    ensures Newlines(Code(s)) == Newlines(s) + (if CodeCut(s) then 1 else 0)
  {
    assert Code(s) == " " + Block(s[2..]) && CodeCut(s) == BlockCut(s[2..]);
    NewlinesSplitAt(s, 2);
    assert s[..2] == "/*";
    NewlinesAppend(" ", Block(s[2..]));
  }

  /** A character copied unchanged: the count goes on after it. */
  lemma CopyNewlines(s: string)
    requires s != [] && !LineStart(s) && !BlockStart(s)
    requires Newlines(Code(s[1..])) == Newlines(s[1..]) + (if CodeCut(s[1..]) then 1 else 0)
    ensures Newlines(Code(s)) == Newlines(s) + (if CodeCut(s) then 1 else 0)
  {
    assert Code(s) == [s[0]] + Code(s[1..]) && CodeCut(s) == CodeCut(s[1..]);
    NewlinesSplitAt(s, 1);
    assert s[..1] == [s[0]];
    NewlinesAppend([s[0]], Code(s[1..]));
  }

  lemma {:induction false} BlockNewlines(s: string)
    ensures Newlines(Block(s)) == Newlines(s) + (if BlockCut(s) then 1 else 0)
    decreases |s|, 0
  {
    if s == [] {
    } else if BlockEnd(s) {
      NewlinesSplitAt(s, 2);
      assert s[..2] == "*/";
      NewlinesAppend(" ", Code(s[2..]));
      CodeNewlines(s[2..]);
    } else {
      var c := if s[0] == '\n' then "\n" else " ";
      NewlinesSplitAt(s, 1);
      assert s[..1] == [s[0]];
      NewlinesAppend(c, Block(s[1..]));
      BlockNewlines(s[1..]);
    }
  }

  lemma NewlinesSplitAt(s: string, k: nat)
    requires k <= |s|
    ensures Newlines(s) == Newlines(s[..k]) + Newlines(s[k..])
  {
    assert s == s[..k] + s[k..];
    NewlinesAppend(s[..k], s[k..]);
  }

  lemma NewlinesAppend(a: string, b: string)
    ensures Newlines(a + b) == Newlines(a) + Newlines(b)
  {
    assert multiset(a + b) == multiset(a) + multiset(b);
  }

  lemma NoNewlines(s: string)
    requires forall j :: 0 <= j < |s| ==> s[j] != '\n'
    ensures Newlines(s) == 0
  {
    assert '\n' !in multiset(s);
  }

  /** The stripped text has the input's newlines, plus one only after an unterminated `//`. */
  lemma StripNewlines(s: string)
    ensures Newlines(Strip(s)) == Newlines(s) + (if CodeCut(s) then 1 else 0)
  {
    CodeNewlines(s);
  }
}
