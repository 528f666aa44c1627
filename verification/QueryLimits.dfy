/** Where the compiler does change the meaning of a query, and exactly when. */
module QueryLimits {
  import opened Wrappers
  import opened QueryModel
  import opened QueryTranslation
  import opened QueryMeaning

  /** The translation selects the document. */
  predicate Finds(d: Doc, q: Query) {
    MatchesTop(d, TranslateQuery(q).0) && MatchesFilters(d, TranslateQuery(q).1)
  }

  /** The translation selects the document iff the query does. */
  predicate Agrees(d: Doc, q: Query) {
    Finds(d, q) <==> Satisfies(d, q)
  }

  // ----- flat bool queries: the fragment is exact

  predicate FlatClause(q: Query) {
    q.MatchAll? || (q.Test? && !q.atom.Match?)
  }

  predicate AllFlat(qs: seq<Query>) {
    forall i :: 0 <= i < |qs| ==> FlatClause(qs[i])
  }

  function Atoms(qs: seq<Query>): set<Atom> {
    set i | 0 <= i < |qs| && qs[i].Test? :: qs[i].atom
  }

  /** A bool query over match_all and distinct tests: no test is both asked for and excluded or optional. */
  predicate Flat(q: Query) {
    && q.Bool? && AllFlat(q.must) && AllFlat(q.mustNot) && AllFlat(q.filter) && AllFlat(q.should)
    && Atoms(q.mustNot) !! Atoms(q.must) + Atoms(q.filter) + Atoms(q.should)
    && Atoms(q.should) !! Atoms(q.must) + Atoms(q.filter)
  }

  /** A document on which exactly these tests succeed. */
  function Having(atoms: set<Atom>): Doc {
    Doc(a => a in atoms, _ => None)
  }

  lemma {:induction false} FlatNode(q: Query, hoist: bool, top: bool)
    requires FlatClause(q)
    ensures Translatable(q, hoist, top) && NoFilters(q) && (Vanishes(q, hoist) <==> q.MatchAll?)
  {
  }

  lemma {:induction false} FlatList(atoms: set<Atom>, qs: seq<Query>)
    requires AllFlat(qs)
    ensures AllSatisfied(Having(atoms), qs) <==> Atoms(qs) <= atoms
    ensures forall hoist, top, i :: 0 <= i < |qs| ==> Translatable(qs[i], hoist, top)
    ensures forall i :: 0 <= i < |qs| ==> NoFilters(qs[i])
    ensures forall hoist, i :: 0 <= i < |qs| ==> (Vanishes(qs[i], hoist) <==> qs[i].MatchAll?)
  {
    forall hoist, top, i | 0 <= i < |qs|
      ensures Translatable(qs[i], hoist, top) && NoFilters(qs[i]) && (Vanishes(qs[i], hoist) <==> qs[i].MatchAll?)
    {
      FlatNode(qs[i], hoist, top);
    }
    if AllSatisfied(Having(atoms), qs) {
      forall a | a in Atoms(qs) ensures a in atoms {
        var i :| 0 <= i < |qs| && qs[i].Test? && qs[i].atom == a;
        assert Satisfies(Having(atoms), qs[i]);
      }
    }
    if Atoms(qs) <= atoms {
      forall i | 0 <= i < |qs| ensures Satisfies(Having(atoms), qs[i]) {
        assert qs[i].Test? ==> qs[i].atom in Atoms(qs);
      }
    }
  }

  lemma {:induction false} FlatParts(atoms: set<Atom>, qs: seq<Query>)
    requires AllFlat(qs)
    ensures NoneHits(Having(atoms), AddToQ(qs, MustNot, true).0) <==> Atoms(qs) !! atoms
    ensures MatchesClauses(Having(atoms), ShouldParts(qs, true).0) <==> !(Atoms(qs) !! atoms)
    ensures forall i :: 0 <= i < |ShouldParts(qs, true).0| ==> ShouldParts(qs, true).0[i].occur == Should
  {
    if qs != [] {
      var n := |qs| - 1;
      var d := Having(atoms);
      FlatParts(atoms, qs[..n]);
      var (sub, more) := Translate(qs[n], true);
      var parts := ShouldParts(qs[..n], true).0;
      assert Atoms(qs) == Atoms(qs[..n]) + if qs[n].Test? then {qs[n].atom} else {} by {
        assert forall i :: 0 <= i < n ==> qs[..n][i] == qs[i];
      }
      PartAdded(d, AddToQ(qs[..n], MustNot, true), (sub, more), MustNot);
      if qs[n].Test? {
        assert sub == [sub[0]] && sub[0].occur == Should && (Hits(d, sub[0]) <==> qs[n].atom in atoms);
        AllShould(d, sub);
        AllShould(d, parts);
        AllShould(d, parts + sub);
        HitsOfSum(d, parts, sub);
      }
    }
  }

  /** What the translation of a flat query asks for: every must and filter test, no excluded test, and one of the
      should tests unless a must test is left in q. */
  lemma {:induction false} FlatReading(atoms: set<Atom>, q: Query)
    requires Flat(q)
    ensures MatchesTop(Having(atoms), TranslateQuery(q).0) && MatchesFilters(Having(atoms), TranslateQuery(q).1) <==>
              Atoms(q.must) + Atoms(q.filter) <= atoms && Atoms(q.mustNot) !! atoms
              && (Atoms(q.should) == {} || Atoms(q.must) != {} || !(Atoms(q.should) !! atoms))
  {
    hide AddToQ, AddToFq, ShouldParts, MatchesClauses, NoneHits;
    var d := Having(atoms);
    var (m, mf) := AddToQ(q.must, Must, true);
    var n := AddToQ(q.mustNot, MustNot, true).0;
    var s := ShouldParts(q.should, true).0;
    FlatList(atoms, q.must);
    FlatList(atoms, q.filter);
    FlatList(atoms, q.mustNot);
    FlatList(atoms, q.should);
    FlatParts(atoms, q.mustNot);
    FlatParts(atoms, q.should);
    MustMeaning(d, q.must, true);
    FilterMeaning(d, q.filter);
    NothingHoistedFrom(q.must, Must, true);
    NothingHoistedFrom(q.mustNot, MustNot, true);
    NothingHoistedFrom(q.should, Should, true);
    PartsShape(q.must, Must, true);
    PartsShape(q.mustNot, MustNot, true);
    ShouldShape(q.should, true);
    NoAtoms(q.must);
    NoAtoms(q.should);
    Assembled(d, m, n, [], s, true);
    FlatTranslation(q);
    assert MatchesFilters(d, mf);
    assert m != [] <==> Atoms(q.must) != {};
    assert s != [] <==> Atoms(q.should) != {};
  }

  /** Without nested filters only the filters of the node itself are hoisted. */
  lemma {:induction false} FlatTranslation(q: Query)
    requires q.Bool?
    requires AddToQ(q.must, Must, true).1 == [] && AddToQ(q.mustNot, MustNot, true).1 == []
             && ShouldParts(q.should, true).1 == []
    ensures TranslateQuery(q).0
         == Assemble(AddToQ(q.must, Must, true).0 + AddToQ(q.mustNot, MustNot, true).0 + [],
             ShouldParts(q.should, true).0)
    ensures TranslateQuery(q).1 == AddToFq(q.filter)
  {
    hide AddToQ, ShouldParts, AddToFq, Assemble;
    assert FilterClauses(q.filter, true) == ([], AddToFq(q.filter));
  }

  lemma {:induction false} NoAtoms(qs: seq<Query>)
    requires AllFlat(qs)
    ensures AllVanish(qs, true) <==> Atoms(qs) == {}
  {
    assert forall i :: 0 <= i < |qs| && qs[i].Test? ==> qs[i].atom in Atoms(qs);
  }

  /** For flat queries the fragment is not only sufficient: the translation agrees on every document iff it is in it. */
  lemma {:induction false} FlatExact(q: Query)
    requires Flat(q)
    ensures (forall d :: Agrees(d, q)) <==> Translatable(q, true, true)
  {
    if Translatable(q, true, true) {
      forall d ensures Agrees(d, q) {
        TranslationMeaning(d, q);
      }
    } else {
      FlatWitness(q);
    }
  }

  /** The document that shows the difference. */
  function Witness(q: Query): Doc
    requires q.Bool?
  {
    if exists i :: 0 <= i < |q.mustNot| && q.mustNot[i].MatchAll? then
      Having(Atoms(q.must) + Atoms(q.filter) + Atoms(q.should))
    else
      Having(Atoms(q.must) + Atoms(q.filter))
  }

  lemma {:induction false} FlatWitness(q: Query)
    requires Flat(q) && !Translatable(q, true, true)
    ensures !Agrees(Witness(q), q)
  {
    hide Satisfies, MatchesTop, MatchesFilters, TranslateQuery;
    if i :| 0 <= i < |q.mustNot| && q.mustNot[i].MatchAll? {
      NothingIsAskedFor(q, i);
    } else {
      SomethingIsAskedFor(q);
    }
  }

  /** An excluded match_all excludes everything, but is left out. */
  lemma {:induction false} NothingIsAskedFor(q: Query, i: nat)
    requires Flat(q) && i < |q.mustNot| && q.mustNot[i].MatchAll?
    ensures !Agrees(Having(Atoms(q.must) + Atoms(q.filter) + Atoms(q.should)), q)
  {
    var atoms := Atoms(q.must) + Atoms(q.filter) + Atoms(q.should);
    FlatReading(atoms, q);
    assert Satisfies(Having(atoms), q.mustNot[i]);
    assert !Satisfies(Having(atoms), q);
    hide Satisfies, MatchesTop, MatchesFilters, TranslateQuery;
  }

  lemma {:induction false} SomethingIsAskedFor(q: Query)
    requires Flat(q) && !Translatable(q, true, true)
    requires forall i :: 0 <= i < |q.mustNot| ==> !q.mustNot[i].MatchAll?
    ensures !Agrees(Having(Atoms(q.must) + Atoms(q.filter)), q)
  {
    var atoms := Atoms(q.must) + Atoms(q.filter);
    FlatReading(atoms, q);
    OptionalIsRequired(q);
    hide Flat, Translatable, MatchesTop, MatchesFilters, TranslateQuery;
    RequiredTests(atoms, q);
  }

  /** Outside the fragment there is a should test that the text requires and the query does not. */
  lemma {:induction false} OptionalIsRequired(q: Query)
    requires Flat(q) && !Translatable(q, true, true)
    requires forall i :: 0 <= i < |q.mustNot| ==> !q.mustNot[i].MatchAll?
    ensures Atoms(q.should) != {} && Atoms(q.must) == {}
    ensures q.must == [] && q.filter == [] ==> exists i :: 0 <= i < |q.should| && q.should[i].MatchAll?
  {
    FlatList({}, q.must);
    FlatList({}, q.filter);
    FlatList({}, q.should);
    FlatList({}, q.mustNot);
    NoAtoms(q.must);
    NoAtoms(q.should);
    hide Satisfies, FlatClause;
  }

  lemma {:induction false} RequiredTests(atoms: set<Atom>, q: Query)
    requires q.Bool? && AllFlat(q.must) && AllFlat(q.filter) && AllFlat(q.should) && AllFlat(q.mustNot)
    requires Atoms(q.must) + Atoms(q.filter) <= atoms && Atoms(q.mustNot) !! atoms
    requires forall i :: 0 <= i < |q.mustNot| ==> !q.mustNot[i].MatchAll?
    requires q.must == [] && q.filter == [] ==> exists i :: 0 <= i < |q.should| && q.should[i].MatchAll?
    ensures Satisfies(Having(atoms), q)
  {
    FlatList(atoms, q.must);
    FlatList(atoms, q.filter);
    forall i | 0 <= i < |q.mustNot| ensures !Satisfies(Having(atoms), q.mustNot[i]) {
      assert q.mustNot[i].atom in Atoms(q.mustNot);
    }
    if q.must == [] && q.filter == [] {
      var i :| 0 <= i < |q.should| && q.should[i].MatchAll?;
      assert Satisfies(Having(atoms), q.should[i]);
    }
  }

  // ----- range bounds

  /** A document with this number in every field, or without any. */
  function Numbered(number: Option<int>): Doc {
    Doc(_ => false, _ => number)
  }

  predicate AtLeast(bound: Option<int>, v: int) {
    bound.Some? ==> bound.value <= v
  }

  predicate AtMost(bound: Option<int>, v: int) {
    bound.Some? ==> v <= bound.value
  }

  /** What the translation of a range finds: a strict bound counts as an inclusive one where there is no other. */
  lemma {:induction false} RangeFinds(d: Doc, field: string, b: Bounds)
    ensures Finds(d, Range(field, b)) <==>
              d.number(field).Some?
              && var v := d.number(field).value;
                 && AtLeast(if b.gte.Some? then b.gte else b.gt, v) && AtMost(if b.lte.Some? then b.lte else b.lt, v)
  {
    var q := Range(field, b);
    var c := TranslateQuery(q).0[0];
    assert TranslateQuery(q) == ([c], []) && c.occur == Should;
    assert c.query == Interval(field, if b.gte.Some? then b.gte else b.gt, if b.lte.Some? then b.lte else b.lt);
    OneShould(d, c);
  }

  lemma {:induction false} OneShould(d: Doc, c: Clause)
    requires c.occur == Should
    ensures MatchesTop(d, [c]) <==> Matches(d, c.query)
  {
    var cs := [c];
    assert cs[0].occur == Should && (Hits(d, cs[0]) <==> Matches(d, c.query));
    assert HasPositive(cs) && !HasMust(cs);
    assert MatchesClauses(d, cs) <==> Hits(d, cs[0]);
  }

  /** What is asked for is found. With at most one lower and one upper bound, what is found and not asked for is just on
      a strict bound. */
  lemma {:induction false} RangeIsWidened(d: Doc, field: string, b: Bounds)
    ensures Satisfies(d, Range(field, b)) ==> Finds(d, Range(field, b))
    ensures Finds(d, Range(field, b)) && !Satisfies(d, Range(field, b))
            && (b.gte.None? || b.gt.None?) && (b.lte.None? || b.lt.None?) ==>
              d.number(field).Some? && (d.number(field) == b.gt || d.number(field) == b.lt)
  {
    RangeFinds(d, field, b);
    hide MatchesTop, MatchesFilters, TranslateQuery;
  }

  /** The bounds that are written shut out everything. */
  predicate Crossed(b: Bounds) {
    var lo, hi := if b.gte.Some? then b.gte else b.gt, if b.lte.Some? then b.lte else b.lt;
    lo.Some? && hi.Some? && lo.value > hi.value
  }

  /** The translation of a range is right on all documents exactly if strict bounds are implied by inclusive ones, or if
      the written bounds shut out everything. */
  lemma {:induction false} RangeExact(field: string, b: Bounds)
    ensures (forall d :: Agrees(d, Range(field, b))) <==> Tight(b) || Crossed(b)
  {
    forall d {
      RangeFinds(d, field, b);
    }
    hide MatchesTop, MatchesFilters, TranslateQuery;
    if !Tight(b) && !Crossed(b) {
      var d := Numbered(Some(OnStrictBound(b)));
      assert d.number(field) == Some(OnStrictBound(b));
      assert !Agrees(d, Range(field, b));
    }
  }

  /** A number that is found, though a strict bound shuts it out. */
  function OnStrictBound(b: Bounds): int {
    if b.gt.Some? && !(b.gte.Some? && b.gt.value < b.gte.value) then
      if b.gte.Some? then b.gte.value else b.gt.value
    else if b.lt.Some? then if b.lte.Some? then b.lte.value else b.lt.value
    else 0
  }

  /** With lower bounds only: right on all documents exactly if a strict bound is implied by an inclusive one. */
  lemma {:induction false} LowerBoundExact(field: string, gte: Option<int>, gt: Option<int>)
    ensures (forall d :: Agrees(d, Range(field, Bounds(gte, gt, None, None))))
            <==> (gt.Some? ==> gte.Some? && gt.value < gte.value)
  {
    RangeExact(field, Bounds(gte, gt, None, None));
  }

  lemma {:induction false} UpperBoundExact(field: string, lte: Option<int>, lt: Option<int>)
    ensures (forall d :: Agrees(d, Range(field, Bounds(None, None, lte, lt))))
            <==> (lt.Some? ==> lte.Some? && lte.value < lt.value)
  {
    RangeExact(field, Bounds(None, None, lte, lt));
  }

  // ----- what is ignored

  /** A leaf that cannot be translated restricts nothing: unknown queries, identifiers without values, and tests on
      fields of metadata. */
  lemma {:induction false} UntranslatableFindsAll(d: Doc, q: Query)
    requires q.Unknown? || q == Ids([]) || (q.Terms? && "_" <= q.field)
             || (q.Test? && q.atom.Match? && (q.atom.field == "" || "_" <= q.atom.field))
    ensures Finds(d, q)
  {
    VanishingNode(q, true);
    var fs := TranslateQuery(q).1;
    assert Translate(q, false) == Translate(q, true) == (STAR, []);
    assert q.Terms? ==> TranslateForFq(q) == Some(Text(STAR));
    assert TranslateQuery(q).0 == STAR && (fs == [] || fs == [Text(STAR)]);
    assert Hits(d, STAR[0]) && STAR[0].occur == Should && HasPositive(STAR);
    assert MatchesTop(d, STAR);
  }

  /** A list of terms without values asks for nothing. As a query it finds nothing, but as a filter it is left out. */
  lemma {:induction false} EmptyTerms(d: Doc, field: string)
    requires !Metadata(field)
    ensures !Satisfies(d, Terms(field, [])) && !Finds(d, Terms(field, []))
    ensures var q := Bool([], [], [Terms(field, [])], []);
            !Satisfies(d, q) && Finds(d, q)
  {
    var terms := Terms(field, []);
    var cs := [Clause(Should, AnyOf(field, []))];
    assert TranslateQuery(terms) == (cs, []);
    assert !Hits(d, cs[0]) && cs[0].occur == Should;
    assert !MatchesClauses(d, cs);
    var q := Bool([], [], [terms], []);
    assert !Satisfies(d, q) by {
      assert [terms][0] == terms && !Satisfies(d, terms);
    }
    assert AddToFq([terms]) == [] by {
      assert [terms][..0] == [];
    }
    FlatTranslation(q);
    assert TranslateQuery(q) == (Assemble([] + [] + [], []), []);
    assert Hits(d, STAR[0]) && STAR[0].occur == Should && HasPositive(STAR) && MatchesTop(d, STAR);
  }

  // ----- the other ways out of the fragment

  /** A bool node of exclusions below another bool node matches nothing, although it asks for everything else. */
  lemma {:induction false} NestedNegation(d: Doc, q: Query, hoist: bool)
    requires q.Bool? && q.must == [] && q.filter == [] && q.should == [] && !AllVanish(q.mustNot, hoist)
    ensures !MatchesClauses(d, Translate(q, hoist).0)
  {
    PartsShape(q.mustNot, MustNot, hoist);
    assert AddToQ([], Must, hoist).0 == [] && FilterClauses([], hoist).0 == [] && ShouldParts([], hoist).0 == [];
    var n := AddToQ(q.mustNot, MustNot, hoist).0;
    assert [] + n + [] == n;
    assert Translate(q, hoist).0 == n;
  }

  /** A conjunction written beside another should clause swallows it: both ask for the whole conjunction. */
  lemma {:induction false} FlattenedShould(d: Doc, a: Atom, b: Atom, hoist: bool)
    requires !a.Match? && !b.Match?
    ensures var q := Bool([], [], [], [Bool([Test(a)], [], [], []), Test(b)]);
            && (Reads(d, Translate(q, hoist).0, true) <==> d.holds(a))
            && (Satisfies(d, q) <==> d.holds(a) || d.holds(b))
  {
    var conj := Bool([Test(a)], [], [], []);
    var qs := [conj, Test(b)];
    FlattenedText(a, b, hoist);
    Assembled(d, [], [], [], ShouldParts(qs, hoist).0, true);
    SideBySide(d, a, b);
    assert Satisfies(d, Bool([], [], [], qs)) <==> SomeSatisfied(d, qs);
    assert Satisfies(d, conj) <==> d.holds(a) by {
      assert [Test(a)][0] == Test(a);
    }
    assert qs[..1] == [conj] && [conj][..0] == [];
    LastSatisfied(d, qs);
    LastSatisfied(d, [conj]);
  }

  lemma {:induction false} FlattenedText(a: Atom, b: Atom, hoist: bool)
    requires !a.Match? && !b.Match?
    ensures ShouldParts([Bool([Test(a)], [], [], []), Test(b)], hoist).0
         == [Clause(Must, Group([Clause(Should, Leaf(a))])), Clause(Should, Leaf(b))]
  {
    var conj := Bool([Test(a)], [], [], []);
    var ca := Clause(Must, Group([Clause(Should, Leaf(a))]));
    assert AddToQ([Test(a)], Must, hoist).0 == [ca] by {
      assert [Test(a)][..0] == [];
    }
    assert Translate(conj, hoist).0 == [ca] by {
      assert [ca] + [] + FilterClauses([], hoist).0 == [ca];
    }
    assert [conj, Test(b)][..1] == [conj] && [conj][..0] == [];
    assert ShouldParts([conj], hoist).0 == [] + [ca] == [ca];
  }

  lemma {:induction false} SideBySide(d: Doc, a: Atom, b: Atom)
    ensures MatchesClauses(d, [Clause(Must, Group([Clause(Should, Leaf(a))])), Clause(Should, Leaf(b))]) <==> d.holds(a)
  {
    var inner := [Clause(Should, Leaf(a))];
    var cs := [Clause(Must, Group(inner)), Clause(Should, Leaf(b))];
    AllShould(d, inner);
    assert inner[0] == Clause(Should, Leaf(a)) && (Hits(d, inner[0]) <==> d.holds(a));
    assert Hits(d, cs[0]) <==> d.holds(a);
    assert cs[0].occur == Must;
  }

  /** A filter below an exclusion is hoisted as if it had been asked for, and the exclusion itself is lost. */
  lemma {:induction false} HoistedFromExclusion(d: Doc, a: Atom)
    requires !a.Match?
    ensures var q := Bool([], [Bool([], [], [Test(a)], [])], [], []);
            && (MatchesTop(d, TranslateQuery(q).0) && MatchesFilters(d, TranslateQuery(q).1) <==> d.holds(a))
            && (Satisfies(d, q) <==> !d.holds(a))
  {
    var inner := Bool([], [], [Test(a)], []);
    var q := Bool([], [inner], [], []);
    var cs := [Clause(Should, Leaf(a))];
    HoistedText(a);
    assert Hits(d, STAR[0]) && HasPositive(STAR) && MatchesTop(d, STAR);
    assert MatchesFilters(d, [Text(cs)]) <==> MatchesFilter(d, Text(cs)) by {
      assert [Text(cs)][0] == Text(cs);
    }
    assert cs[0].occur == Should && (Hits(d, cs[0]) <==> d.holds(a));
    assert Satisfies(d, inner) <==> d.holds(a) by {
      assert [Test(a)][0] == Test(a);
    }
    assert [inner][0] == inner;
  }

  lemma {:induction false} HoistedText(a: Atom)
    requires !a.Match?
    ensures TranslateQuery(Bool([], [Bool([], [], [Test(a)], [])], [], [])) == (STAR, [Text([Clause(Should, Leaf(a))])])
  {
    var inner := Bool([], [], [Test(a)], []);
    var q := Bool([], [inner], [], []);
    var fq := Text([Clause(Should, Leaf(a))]);
    assert AddToFq([Test(a)]) == [fq] by {
      assert [Test(a)][..0] == [] && [] + [fq] == [fq];
      assert TranslateForFq(Test(a)) == Some(fq);
    }
    FlatTranslation(inner);
    assert AddToQ([inner], MustNot, true) == ([], [fq]) by {
      assert [inner][..0] == [];
      assert [] + [fq] == [fq];
    }
    assert Translate(q, true).0 == Assemble([] + [] + [], []) == STAR;
    assert Translate(q, true).1 == [] + [fq] + [] + [] == [fq];
  }
}
