/** The compiler from OpenSearch query DSL to Solr clauses: conversion/query.py. */
module QueryTranslation {
  import opened Wrappers
  import opened QueryModel

  /** The text of a query that restricts nothing. */
  const STAR := [Clause(Should, Everything)]

  /** Metadata fields and empty names are skipped. */
  predicate Metadata(field: string) {
    field != "" && field[0] == '_'
  }

  // ----- the translation as functions

  function Leaves(q: Query): seq<Clause>
    requires !q.Bool?
  {
    match q
    case MatchAll | Unknown => STAR
    case MatchNone => [Clause(MustNot, Everything)]
    case Test(atom) =>
      if atom.Match? && (atom.field == "" || Metadata(atom.field)) then STAR else [Clause(Should, Leaf(atom))]
    case Terms(field, values) => if Metadata(field) then STAR else [Clause(Should, AnyOf(field, values))]
    case Ids(ids) => if ids == [] then STAR else [Clause(Should, AnyOf("id", ids))]
    case Range(field, b) =>
      [Clause(Should, Interval(field, if b.gte.Some? then b.gte else b.gt, if b.lte.Some? then b.lte else b.lt))]
  }

  /** The clauses for q and the filters for fq; filters are hoisted into fq, or inlined as MUST clauses. */
  function Translate(q: Query, hoist: bool): (seq<Clause>, seq<Filter>)
    decreases q, 0
  {
    if !q.Bool? then (Leaves(q), [])
    else
      var (m, mf) := AddToQ(q.must, Must, hoist);
      var (n, nf) := AddToQ(q.mustNot, MustNot, hoist);
      var (f, ff) := FilterClauses(q.filter, hoist);
      var (s, sf) := ShouldParts(q.should, hoist);
      (Assemble(m + n + f, s), mf + nf + ff + sf)
  }

  function Assemble(parts: seq<Clause>, should: seq<Clause>): seq<Clause> {
    var all := if should == [] then parts else parts + [Clause(Should, Group(should))];
    if all == [] then STAR else all
  }

  /** One parenthesised part per clause, except for clauses that restrict nothing. */
  function AddToQ(qs: seq<Query>, occur: Occur, hoist: bool): (seq<Clause>, seq<Filter>)
    decreases qs, 0
  {
    if qs == [] then ([], [])
    else
      var n := |qs| - 1;
      var (parts, fs) := AddToQ(qs[..n], occur, hoist);
      var (sub, more) := Translate(qs[n], hoist);
      (if sub == STAR then parts else parts + [Clause(occur, Group(sub))], fs + more)
  }

  function FilterClauses(qs: seq<Query>, hoist: bool): (seq<Clause>, seq<Filter>)
    decreases qs, 1
  {
    if hoist then ([], AddToFq(qs)) else AddToQ(qs, Must, false)
  }

  function AddToFq(qs: seq<Query>): seq<Filter>
    decreases qs, 0
  {
    if qs == [] then []
    else
      var n := |qs| - 1;
      match TranslateForFq(qs[n])
      case None => AddToFq(qs[..n])
      case Some(f) => AddToFq(qs[..n]) + [f]
  }

  /** The should clauses one after the other, without parentheses of their own. */
  function ShouldParts(qs: seq<Query>, hoist: bool): (seq<Clause>, seq<Filter>)
    decreases qs, 0
  {
    if qs == [] then ([], [])
    else
      var n := |qs| - 1;
      var (parts, fs) := ShouldParts(qs[..n], hoist);
      var (sub, more) := Translate(qs[n], hoist);
      (if sub == STAR then parts else parts + sub, fs + more)
  }

  function TranslateForFq(q: Query): Option<Filter>
    decreases q, 1
  {
    if q.Terms? && !Metadata(q.field) then
      if q.values == [] then None else Some(TermsFilter(q.field, q.values))
    else
      Some(Text(Translate(q, false).0))
  }

  /** The q clauses and the fq filters of a whole query body. */
  function TranslateQuery(q: Query): (seq<Clause>, seq<Filter>) {
    if q.Terms? && TranslateForFq(q).Some? then (STAR, [TranslateForFq(q).value]) else Translate(q, true)
  }

  // ----- the translation as the program runs it: a shared list of filters and a growing list of parts

  class FilterList {
    var items: seq<Filter>

    constructor ()
      ensures items == []
    {
      items := [];
    }
  }

  method TranslateQueryNode(q: Query, fqList: FilterList?) returns (cs: seq<Clause>)
    modifies if fqList == null then {} else {fqList}
    ensures cs == Translate(q, fqList != null).0
    ensures fqList != null ==> fqList.items == old(fqList.items) + Translate(q, true).1
    decreases q, 0
  {
    if !q.Bool? {
      return Leaves(q);
    }
    hide AddToQ, AddToFq, ShouldParts, FilterClauses;
    ghost var before := if fqList == null then [] else fqList.items;
    var parts := AppendParts(q.must, Must, fqList);
    var more := AppendParts(q.mustNot, MustNot, fqList);
    parts := parts + more;
    more := AppendFilterClauses(q.filter, fqList);
    parts := parts + more;
    var shouldParts := AppendShould(q.should, fqList);
    Regroup(before, AddToQ(q.must, Must, true).1, AddToQ(q.mustNot, MustNot, true).1,
            FilterClauses(q.filter, true).1, ShouldParts(q.should, true).1);
    if shouldParts != [] {
      parts := parts + [Clause(Should, Group(shouldParts))];
    }
    cs := if parts == [] then STAR else parts;
  }

  lemma {:induction false} Regroup<T>(s: seq<T>, a: seq<T>, b: seq<T>, c: seq<T>, d: seq<T>)
    ensures s + a + b + c + d == s + (a + b + c + d)
  {
  }

  /** Filter clauses become fq parameters when there is a list for them, and MUST parts otherwise. */
  method AppendFilterClauses(qs: seq<Query>, fqList: FilterList?) returns (parts: seq<Clause>)
    modifies if fqList == null then {} else {fqList}
    ensures parts == FilterClauses(qs, fqList != null).0
    ensures fqList != null ==> fqList.items == old(fqList.items) + FilterClauses(qs, true).1
    decreases qs, 1
  {
    if fqList != null {
      AppendFilters(qs, fqList);
      parts := [];
    } else {
      parts := AppendParts(qs, Must, fqList);
    }
  }

  method AppendParts(qs: seq<Query>, occur: Occur, fqList: FilterList?) returns (parts: seq<Clause>)
    modifies if fqList == null then {} else {fqList}
    ensures parts == AddToQ(qs, occur, fqList != null).0
    ensures fqList != null ==> fqList.items == old(fqList.items) + AddToQ(qs, occur, true).1
    decreases qs, 0
  {
    hide Translate;
    parts := [];
    for i := 0 to |qs|
      invariant parts == AddToQ(qs[..i], occur, fqList != null).0
      invariant fqList != null ==> fqList.items == old(fqList.items) + AddToQ(qs[..i], occur, true).1
    {
      assert qs[..i + 1][..i] == qs[..i];
      var sub := TranslateQueryNode(qs[i], fqList);
      if sub != STAR {
        parts := parts + [Clause(occur, Group(sub))];
      }
    }
    assert qs[..|qs|] == qs;
  }

  method AppendShould(qs: seq<Query>, fqList: FilterList?) returns (parts: seq<Clause>)
    modifies if fqList == null then {} else {fqList}
    ensures parts == ShouldParts(qs, fqList != null).0
    ensures fqList != null ==> fqList.items == old(fqList.items) + ShouldParts(qs, true).1
    decreases qs, 0
  {
    hide Translate;
    parts := [];
    for i := 0 to |qs|
      invariant parts == ShouldParts(qs[..i], fqList != null).0
      invariant fqList != null ==> fqList.items == old(fqList.items) + ShouldParts(qs[..i], true).1
    {
      assert qs[..i + 1][..i] == qs[..i];
      var sub := TranslateQueryNode(qs[i], fqList);
      if sub != STAR {
        parts := parts + sub;
      }
    }
    assert qs[..|qs|] == qs;
  }

  method AppendFilters(qs: seq<Query>, fqList: FilterList)
    modifies fqList
    ensures fqList.items == old(fqList.items) + AddToFq(qs)
    decreases qs, 0
  {
    for i := 0 to |qs|
      invariant fqList.items == old(fqList.items) + AddToFq(qs[..i])
    {
      assert qs[..i + 1][..i] == qs[..i];
      var f := TranslateNodeForFq(qs[i]);
      if f.Some? {
        fqList.items := fqList.items + [f.value];
      }
    }
    assert qs[..|qs|] == qs;
  }

  method TranslateNodeForFq(q: Query) returns (f: Option<Filter>)
    ensures f == TranslateForFq(q)
    decreases q, 1
  {
    if q.Terms? && !Metadata(q.field) {
      return if q.values == [] then None else Some(TermsFilter(q.field, q.values));
    }
    var cs := TranslateQueryNode(q, null);
    f := Some(Text(cs));
  }

  method TranslateOpenSearchQuery(q: Query) returns (cs: seq<Clause>, fq: seq<Filter>)
    ensures (cs, fq) == TranslateQuery(q)
  {
    var fqList := new FilterList();
    if q.Terms? {
      var f := TranslateNodeForFq(q);
      if f.Some? {
        return STAR, [f.value];
      }
    }
    cs := TranslateQueryNode(q, fqList);
    assert [] + Translate(q, true).1 == Translate(q, true).1;
    fq := fqList.items;
  }
}
