/**
 * Linguistic variables (variable.go): a Variable indexes its Terms by name and derives its
 * universe from the domains of their memberships.
 */
module Catalog {
  import opened Wrappers
  import opened Floats
  import opened FuzzyErrors
  import opened MembershipFunctions

  /** A named membership (NewTerm). */
  datatype Term = Term(name: string, membership: Membership) {
    /** Term.Domain: the membership's own domain. */
    function Domain(): (real, real) {
      MembershipFunctions.Domain(membership)
    }
  }

  /**
   * A variable: its terms indexed by name, and the universe bounds, which stay +Inf and -Inf
   * when there is no term.
   */
  datatype Variable = Variable(
    name: string,
    terms: map<string, Term>,
    universeMin: Float,
    universeMax: Float)
  {
    /** Every term is indexed under its own name, as NewVariable builds them. */
    predicate Valid() {
      forall k :: k in terms ==> terms[k].name == k
    }

    /** Variable.Term: the term registered under `termName`, else ErrUndefinedTerm. */
    function Term(termName: string): (r: Outcome<Term, FuzzyError>)
      ensures r.Ok? <==> termName in terms
      ensures r.Ok? ==> r.value == terms[termName]
      ensures r.Fail? ==> r.error == UndefinedTerm
    {
      if termName in terms then Ok(terms[termName]) else Fail(UndefinedTerm)
    }
  }

  /** No two terms of the list share a name. */
  predicate DistinctNames(ts: seq<Term>) {
    forall i, j :: 0 <= i < j < |ts| ==> ts[i].name != ts[j].name
  }

  /** The terms' domains, in list order. */
  function TermDomains(ts: seq<Term>): (ds: seq<(real, real)>)
    ensures |ds| == |ts| && forall i :: 0 <= i < |ts| ==> ds[i] == ts[i].Domain()
  {
    seq(|ts|, i requires 0 <= i < |ts| => ts[i].Domain())
  }

  /** The terms of the list indexed by their names. */
  function Index(ts: seq<Term>): (m: map<string, Term>)
    requires DistinctNames(ts)
  {
    map i | 0 <= i < |ts| :: ts[i].name := ts[i]
  }

  /** The least lower bound of the terms' domains, +Inf for no term. */
  function UniverseMin(ts: seq<Term>): Float {
    if ts == [] then PosInf else Fin(MinAll(Lows(TermDomains(ts))))
  }

  /** The greatest upper bound of the terms' domains, -Inf for no term. */
  function UniverseMax(ts: seq<Term>): Float {
    if ts == [] then NegInf else Fin(MaxAll(Highs(TermDomains(ts))))
  }

  /**
   * What NewVariable builds: the variable, or ErrTermAlreadyExists (a panic in the source)
   * as soon as two terms share a name.
   */
  function BuildVariable(name: string, ts: seq<Term>): Outcome<Variable, FuzzyError> {
    if DistinctNames(ts) then Ok(Variable(name, Index(ts), UniverseMin(ts), UniverseMax(ts)))
    else Fail(TermAlreadyExists)
  }

  /**
   * NewVariable: indexes the terms one by one, aborting on the first name met twice, and
   * keeps a running minimum and maximum of their domain bounds seeded with +Inf and -Inf.
   */
  method NewVariable(name: string, ts: seq<Term>) returns (r: Outcome<Variable, FuzzyError>)
    ensures r == BuildVariable(name, ts)
  {
    var indexed: map<string, Term> := map[];
    var universeMin, universeMax := PosInf, NegInf;
    ghost var ds := TermDomains(ts);
    ghost var lows, highs := Lows(ds), Highs(ds);
    for i := 0 to |ts|
      invariant DistinctNames(ts[..i])
      invariant indexed == Index(ts[..i])
      invariant i == 0 ==> universeMin == PosInf && universeMax == NegInf
      invariant i > 0 ==> universeMin == Fin(MinAll(lows[..i])) && universeMax == Fin(MaxAll(highs[..i]))
    {
      if ts[i].name in indexed {
        IndexDuplicate(ts, i);
        return Fail(TermAlreadyExists);
      }
      IndexStep(ts, i);
      indexed := indexed[ts[i].name := ts[i]];
      RunningMin(lows, i, universeMin);
      RunningMax(highs, i, universeMax);
      var (lo, hi) := ts[i].Domain();
      assert lo == lows[i] && hi == highs[i];
      universeMin := Floats.Min(universeMin, Fin(lo));
      universeMax := Floats.Max(universeMax, Fin(hi));
    }
    assert ts[..|ts|] == ts && lows[..|ts|] == lows && highs[..|ts|] == highs;
    r := Ok(Variable(name, indexed, universeMin, universeMax));
  }

  /** A name not yet indexed extends the index of a duplicate-free prefix by one entry. */
  lemma IndexStep(ts: seq<Term>, i: nat)
    requires i < |ts| && DistinctNames(ts[..i]) && ts[i].name !in Index(ts[..i])
    ensures DistinctNames(ts[..i + 1])
    ensures Index(ts[..i + 1]) == Index(ts[..i])[ts[i].name := ts[i]]
  {
    var p, q := ts[..i], ts[..i + 1];
    assert forall j :: 0 <= j < i ==> q[j] == p[j];
    forall j | 0 <= j < i ensures q[j].name != q[i].name {
      assert p[j].name in Index(p);
    }
  }

  /** A name already indexed means the whole list has a duplicate. */
  lemma IndexDuplicate(ts: seq<Term>, i: nat)
    requires i < |ts| && DistinctNames(ts[..i]) && ts[i].name in Index(ts[..i])
    ensures !DistinctNames(ts)
  {
    var j :| 0 <= j < i && ts[..i][j].name == ts[i].name;
    assert ts[j].name == ts[i].name;
  }

  // ---------------------------------------------------------------------------------
  // Properties of NewVariable

  /**
   * A built variable keeps the name it was given, and Term returns, for each name, exactly
   * the term constructed under it, and ErrUndefinedTerm for any other name.
   */
  lemma TermLookup(name: string, ts: seq<Term>, termName: string)
    requires BuildVariable(name, ts).Ok?
    ensures BuildVariable(name, ts).value.name == name
    ensures BuildVariable(name, ts).value.Valid()
    ensures forall i :: 0 <= i < |ts| ==> BuildVariable(name, ts).value.Term(ts[i].name) == Ok(ts[i])
    ensures (forall i :: 0 <= i < |ts| ==> ts[i].name != termName) ==>
      BuildVariable(name, ts).value.Term(termName) == Fail(UndefinedTerm)
  {
    var v := BuildVariable(name, ts).value;
    forall i | 0 <= i < |ts| ensures v.Term(ts[i].name) == Ok(ts[i]) {
      assert ts[i].name in v.terms;
    }
  }

  /** NewVariable aborts with ErrTermAlreadyExists exactly when two terms share a name. */
  lemma DuplicateTermFails(name: string, ts: seq<Term>)
    ensures BuildVariable(name, ts).Fail? <==> exists i, j :: 0 <= i < j < |ts| && ts[i].name == ts[j].name
    ensures BuildVariable(name, ts).Fail? ==> BuildVariable(name, ts).error == TermAlreadyExists
  {
  }

  /**
   * The universe bounds of a variable with terms are the least lower and the greatest upper
   * bound of the terms' domains: every term's domain lies within them and each is attained.
   * Without terms they stay +Inf and -Inf.
   */
  lemma {:induction false} UniverseBounds(name: string, ts: seq<Term>)
    requires BuildVariable(name, ts).Ok?
    ensures ts == [] ==>
      BuildVariable(name, ts).value.universeMin == PosInf && BuildVariable(name, ts).value.universeMax == NegInf
    ensures ts != [] ==>
      BuildVariable(name, ts).value.universeMin.Fin? && BuildVariable(name, ts).value.universeMax.Fin?
    ensures forall i :: 0 <= i < |ts| ==>
      BuildVariable(name, ts).value.universeMin.r <= ts[i].Domain().0 &&
      ts[i].Domain().1 <= BuildVariable(name, ts).value.universeMax.r
    ensures ts != [] ==> exists i :: 0 <= i < |ts| && BuildVariable(name, ts).value.universeMin.r == ts[i].Domain().0
    ensures ts != [] ==> exists i :: 0 <= i < |ts| && BuildVariable(name, ts).value.universeMax.r == ts[i].Domain().1
  {
    if ts != [] {
      var lows, highs := Lows(TermDomains(ts)), Highs(TermDomains(ts));
      MinAllBounds(lows);
      MaxAllBounds(highs);
      var j :| 0 <= j < |lows| && MinAll(lows) == lows[j];
      var k :| 0 <= k < |highs| && MaxAll(highs) == highs[k];
      assert lows[j] == ts[j].Domain().0 && highs[k] == ts[k].Domain().1;
    }
  }
}
