/**
 * Inference results (result.go): per variable and term, the accumulated truth degree and
 * the aggregated membership, with the two selections over them.
 */
module ResultSelection {
  import opened Wrappers
  import opened MembershipFunctions

  /** A Result (NewResult); its accessors are the three fields. */
  datatype Result = Result(term: string, truthDegree: real, membership: Membership)

  /** Results: variable name -> term name -> result. */
  type Results = map<string, map<string, Result>>

  /** The results recorded for `variable`; a missing variable reads as no result. */
  function Entries(rs: Results, variable: string): (es: map<string, Result>)
    ensures variable !in rs ==> es == map[]
  {
    if variable in rs then rs[variable] else map[]
  }

  /** `d` is the highest truth degree among the entries. */
  predicate TopDegree(es: map<string, Result>, d: real) {
    (exists k :: k in es && es[k].truthDegree == d) &&
    forall k :: k in es ==> es[k].truthDegree <= d
  }

  /**
   * Results.Best: a result of highest truth degree for `variable`, found by a scan that
   * replaces the running best only on a strictly higher degree. The scan follows Go's
   * unspecified map order, so which of several tied results is returned is left open.
   * Nothing is found when the variable has no result or the highest degree is exactly 0.
   */
  method Best(rs: Results, variable: string) returns (best: Option<Result>)
    ensures best.Some? ==> exists k :: k in Entries(rs, variable) && Entries(rs, variable)[k] == best.value
    ensures best.Some? ==> TopDegree(Entries(rs, variable), best.value.truthDegree)
    ensures best.Some? ==> best.value.truthDegree != 0.0
    ensures best.None? <==> Entries(rs, variable) == map[] || TopDegree(Entries(rs, variable), 0.0)
  {
    var terms := Entries(rs, variable);
    var remaining := terms.Keys;
    var current: Option<Result> := None;
    while remaining != {}
      invariant remaining <= terms.Keys
      invariant current.None? <==> remaining == terms.Keys
      invariant current.Some? ==> exists k :: k in terms && k !in remaining && terms[k] == current.value
      invariant current.Some? ==>
        forall k :: k in terms && k !in remaining ==> terms[k].truthDegree <= current.value.truthDegree
      decreases remaining
    {
      var k :| k in remaining;
      var res := terms[k];
      if current.None? || res.truthDegree > current.value.truthDegree {
        current := Some(res);
      }
      remaining := remaining - {k};
    }
    if current.None? || current.value.truthDegree == 0.0 {
      if current.Some? {
        assert TopDegree(terms, 0.0);
      }
      return None;
    }
    best := current;
    if TopDegree(terms, 0.0) {
      var k :| k in terms && terms[k] == current.value;
      assert current.value.truthDegree <= 0.0;
    }
  }

  // ---------------------------------------------------------------------------------
  // String order, as sort.Strings compares (code point by code point)

  /** `a` sorts at or before `b`. */
  predicate Below(a: string, b: string)
    decreases |a|
  {
    |a| == 0 || (|b| > 0 && (a[0] < b[0] || (a[0] == b[0] && Below(a[1..], b[1..]))))
  }

  lemma {:induction false} BelowTotal(a: string, b: string)
    ensures Below(a, b) || Below(b, a)
    decreases |a|
  {
    if |a| > 0 && |b| > 0 && a[0] == b[0] {
      BelowTotal(a[1..], b[1..]);
    }
  }

  lemma {:induction false} BelowTransitive(a: string, b: string, c: string)
    requires Below(a, b) && Below(b, c)
    ensures Below(a, c)
    decreases |a|
  {
    if |a| > 0 && a[0] == b[0] && b[0] == c[0] {
      BelowTransitive(a[1..], b[1..], c[1..]);
    }
  }

  predicate Sorted(s: seq<string>) {
    forall i, j :: 0 <= i < j < |s| ==> Below(s[i], s[j])
  }

  predicate Distinct(s: seq<string>) {
    forall i, j :: 0 <= i < j < |s| ==> s[i] != s[j]
  }

  /** `x` inserted into a list before the first element it sorts at or before. */
  function Insert(s: seq<string>, x: string): (r: seq<string>)
    ensures multiset(r) == multiset(s) + multiset{x}
  {
    if s == [] then [x]
    else if Below(x, s[0]) then [x] + s
    else
      assert s == [s[0]] + s[1..];
      [s[0]] + Insert(s[1..], x)
  }

  lemma {:induction false} InsertSorted(s: seq<string>, x: string)
    requires Sorted(s)
    ensures Sorted(Insert(s, x))
  {
    if s == [] {
    } else if Below(x, s[0]) {
      forall j | 0 < j < |s| ensures Below(x, s[j]) { BelowTransitive(x, s[0], s[j]); }
    } else {
      var tail := Insert(s[1..], x);
      InsertSorted(s[1..], x);
      BelowTotal(x, s[0]);
      forall y | y in tail ensures Below(s[0], y) {
        assert y in multiset(tail);
        assert y == x || y in s[1..];
      }
      assert Insert(s, x) == [s[0]] + tail;
    }
  }

  lemma {:induction false} InsertDistinct(s: seq<string>, x: string)
    requires Distinct(s) && x !in s
    ensures Distinct(Insert(s, x))
  {
    if s != [] && !Below(x, s[0]) {
      var tail := Insert(s[1..], x);
      InsertDistinct(s[1..], x);
      assert forall k :: 0 <= k < |s| - 1 ==> s[1..][k] == s[k + 1];
      assert s[0] !in multiset(s[1..]) && s[0] != x;
      assert s[0] !in multiset(tail);
      assert Insert(s, x) == [s[0]] + tail;
    }
  }

  /** sort.Strings: a sorted arrangement of the same strings. */
  method SortStrings(s: seq<string>) returns (t: seq<string>)
    ensures Sorted(t)
    ensures multiset(t) == multiset(s)
    ensures Distinct(s) ==> Distinct(t)
  {
    t := [];
    for i := 0 to |s|
      invariant Sorted(t)
      invariant multiset(t) == multiset(s[..i])
      invariant Distinct(s) ==> Distinct(t)
    {
      assert s[..i + 1] == s[..i] + [s[i]];
      InsertSorted(t, s[i]);
      if Distinct(s) {
        assert forall j :: 0 <= j < i ==> s[..i][j] == s[j] != s[i];
        assert s[i] !in multiset(s[..i]);
        InsertDistinct(t, s[i]);
      }
      t := Insert(t, s[i]);
    }
    assert s[..|s|] == s;
  }

  /**
   * Results.Variables: every variable name exactly once, in ascending order. The names are
   * collected in map order and then sorted.
   */
  method Variables(rs: Results) returns (names: seq<string>)
    ensures forall n :: n in names <==> n in rs
    ensures forall i, j :: 0 <= i < j < |names| ==> names[i] != names[j] && Below(names[i], names[j])
    ensures |names| == |rs|
  {
    var collected: seq<string> := [];
    var remaining := rs.Keys;
    while remaining != {}
      invariant remaining <= rs.Keys
      invariant forall n :: n in collected <==> n in rs && n !in remaining
      invariant Distinct(collected)
      invariant |collected| + |remaining| == |rs|
      decreases remaining
    {
      var name :| name in remaining;
      collected := collected + [name];
      remaining := remaining - {name};
    }
    names := SortStrings(collected);
    assert forall n :: n in names <==> n in multiset(collected);
    assert |names| == |multiset(names)| == |multiset(collected)| == |collected|;
  }
}
