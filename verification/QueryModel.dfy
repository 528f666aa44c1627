/** The two query languages and what they mean for one document: OpenSearch query DSL, and the Lucene clauses that Solr
    reads from the q and fq parameters. */
module QueryModel {
  import opened Wrappers

  /** A leaf test whose meaning the document decides. */
  datatype Atom =
    | Term(field: string, value: string)
    | Match(field: string, text: string, phrase: bool)
    | Exists(field: string)

  /** Bounds of a range query; a missing bound is open. */
  datatype Bounds = Bounds(gte: Option<int>, gt: Option<int>, lte: Option<int>, lt: Option<int>)

  datatype Query =
    | MatchAll
    | MatchNone
    | Test(atom: Atom)
    | Terms(field: string, values: seq<string>)
    | Ids(ids: seq<string>)
    | Range(field: string, bounds: Bounds)
    | Bool(must: seq<Query>, mustNot: seq<Query>, filter: seq<Query>, should: seq<Query>)
    | Unknown

  datatype Doc = Doc(holds: Atom -> bool, number: string -> Option<int>)

  // ----- OpenSearch

  predicate InBounds(b: Bounds, v: int) {
    && (b.gte.Some? ==> b.gte.value <= v) && (b.gt.Some? ==> b.gt.value < v)
    && (b.lte.Some? ==> v <= b.lte.value) && (b.lt.Some? ==> v < b.lt.value)
  }

  /** Without must and filter clauses at least one should clause has to match; otherwise they are optional. */
  predicate Satisfies(d: Doc, q: Query)
    decreases q
  {
    match q
    case MatchAll => true
    case MatchNone => false
    case Test(atom) => d.holds(atom)
    case Terms(field, values) => exists i :: 0 <= i < |values| && d.holds(Term(field, values[i]))
    case Ids(ids) => exists i :: 0 <= i < |ids| && d.holds(Term("id", ids[i]))
    case Range(field, bounds) => d.number(field).Some? && InBounds(bounds, d.number(field).value)
    case Bool(must, mustNot, filter, should) =>
      && (forall i :: 0 <= i < |must| ==> Satisfies(d, must[i]))
      && (forall i :: 0 <= i < |filter| ==> Satisfies(d, filter[i]))
      && (forall i :: 0 <= i < |mustNot| ==> !Satisfies(d, mustNot[i]))
      && (should == [] || must != [] || filter != [] || exists i :: 0 <= i < |should| && Satisfies(d, should[i]))
    case Unknown => false
  }

  // ----- Solr

  datatype Occur = Must | MustNot | Should

  datatype SolrQuery =
    | Everything
    | Leaf(atom: Atom)
    | AnyOf(field: string, values: seq<string>)
    | Interval(field: string, lo: Option<int>, hi: Option<int>)
    | Group(clauses: seq<Clause>)

  datatype Clause = Clause(occur: Occur, query: SolrQuery)

  /** An fq parameter: query text, or the terms parser. */
  datatype Filter = Text(clauses: seq<Clause>) | TermsFilter(field: string, values: seq<string>)

  predicate Matches(d: Doc, q: SolrQuery)
    decreases q
  {
    match q
    case Everything => true
    case Leaf(atom) => d.holds(atom)
    case AnyOf(field, values) => exists i :: 0 <= i < |values| && d.holds(Term(field, values[i]))
    case Interval(field, lo, hi) =>
      && d.number(field).Some?
      && (lo.Some? ==> lo.value <= d.number(field).value) && (hi.Some? ==> d.number(field).value <= hi.value)
    case Group(clauses) => MatchesClauses(d, clauses)
  }

  /** A Lucene boolean query: every MUST, no MUST_NOT, and at least one SHOULD when there is no MUST.
      In particular a query of MUST_NOT clauses alone matches nothing. */
  predicate MatchesClauses(d: Doc, cs: seq<Clause>)
    decreases cs
  {
    && (forall i :: 0 <= i < |cs| && cs[i].occur == Must ==> Hits(d, cs[i]))
    && (forall i :: 0 <= i < |cs| && cs[i].occur == MustNot ==> !Hits(d, cs[i]))
    && (HasMust(cs) || exists i :: 0 <= i < |cs| && cs[i].occur == Should && Hits(d, cs[i]))
  }

  predicate Hits(d: Doc, c: Clause)
    decreases c
  {
    Matches(d, c.query)
  }

  predicate HasMust(cs: seq<Clause>) {
    exists i :: 0 <= i < |cs| && cs[i].occur == Must
  }

  predicate HasPositive(cs: seq<Clause>) {
    exists i :: 0 <= i < |cs| && cs[i].occur != MustNot
  }

  /** Only at the top of a parameter a purely negative query is read against all documents. */
  predicate MatchesTop(d: Doc, cs: seq<Clause>) {
    if HasPositive(cs) then MatchesClauses(d, cs)
    else forall i :: 0 <= i < |cs| ==> !Hits(d, cs[i])
  }

  predicate MatchesFilter(d: Doc, f: Filter) {
    match f
    case Text(clauses) => MatchesTop(d, clauses)
    case TermsFilter(field, values) => exists i :: 0 <= i < |values| && d.holds(Term(field, values[i]))
  }

  predicate MatchesFilters(d: Doc, fs: seq<Filter>) {
    forall i :: 0 <= i < |fs| ==> MatchesFilter(d, fs[i])
  }
}
