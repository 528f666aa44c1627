/** When the compiler preserves meaning: a decidable fragment on which q and fq together select exactly the documents
    that satisfy the query, in both modes of the recursion. */
module QueryMeaning {
  import opened Wrappers
  import opened QueryModel
  import opened QueryTranslation

  // ----- what a node leaves in the q text, read off the query

  /** The node leaves nothing behind in q. */
  predicate Vanishes(q: Query, hoist: bool)
    decreases q
  {
    match q
    case MatchAll | Unknown => true
    case MatchNone | Range(_, _) => false
    case Test(atom) => atom.Match? && (atom.field == "" || Metadata(atom.field))
    case Terms(field, _) => Metadata(field)
    case Ids(ids) => ids == []
    case Bool(must, mustNot, filter, should) =>
      && (forall i :: 0 <= i < |must| ==> Vanishes(must[i], hoist))
      && (forall i :: 0 <= i < |mustNot| ==> Vanishes(mustNot[i], hoist))
      && (hoist || forall i :: 0 <= i < |filter| ==> Vanishes(filter[i], false))
      && (forall i :: 0 <= i < |should| ==> Vanishes(should[i], hoist))
  }

  predicate AllVanish(qs: seq<Query>, hoist: bool) {
    forall i :: 0 <= i < |qs| ==> Vanishes(qs[i], hoist)
  }

  predicate NoneVanishes(qs: seq<Query>, hoist: bool) {
    forall i :: 0 <= i < |qs| ==> !Vanishes(qs[i], hoist)
  }

  /** Some MUST clause of a bool node survives in q. */
  predicate KeepsMust(q: Query, hoist: bool)
    requires q.Bool?
  {
    !AllVanish(q.must, hoist) || (!hoist && !AllVanish(q.filter, false))
  }

  /** The node leaves a positive clause in q, or nothing at all. */
  predicate Positive(q: Query, hoist: bool) {
    q.MatchNone? || (q.Bool? ==> Vanishes(q, hoist) || KeepsMust(q, hoist) || !AllVanish(q.should, hoist))
  }

  /** The node leaves only SHOULD clauses in q. */
  predicate ShouldOnly(q: Query, hoist: bool) {
    !q.MatchNone?
    && (q.Bool? ==>
          AllVanish(q.must, hoist) && AllVanish(q.mustNot, hoist) && (hoist || AllVanish(q.filter, false)))
  }

  /** Nothing below the node would be hoisted into fq. */
  predicate NoFilters(q: Query)
    decreases q
  {
    q.Bool? ==>
      && q.filter == []
      && (forall i :: 0 <= i < |q.must| ==> NoFilters(q.must[i]))
      && (forall i :: 0 <= i < |q.mustNot| ==> NoFilters(q.mustNot[i]))
      && (forall i :: 0 <= i < |q.should| ==> NoFilters(q.should[i]))
  }

  // ----- the fragment

  /** A strict bound is written as an inclusive one, so it has to be implied by the inclusive bound beside it. */
  predicate Tight(b: Bounds) {
    && (b.gt.Some? ==> b.gte.Some? && b.gt.value < b.gte.value)
    && (b.lt.Some? ==> b.lte.Some? && b.lte.value < b.lt.value)
  }

  /** The node is translated faithfully: with `top` when it is read as a whole parameter, else when it is nested. */
  predicate Translatable(q: Query, hoist: bool, top: bool)
    decreases q
  {
    match q
    case MatchAll | MatchNone => true
    case Unknown => false
    case Test(atom) => atom.Match? ==> atom.field != "" && !Metadata(atom.field)
    case Terms(field, values) => !Metadata(field) && values != []
    case Ids(ids) => ids != []
    case Range(_, bounds) => Tight(bounds)
    case Bool(must, mustNot, filter, should) =>
      && (top || Positive(q, hoist))
      && (forall i :: 0 <= i < |must| ==> Translatable(must[i], hoist, false))
      && (forall i :: 0 <= i < |filter| ==> Translatable(filter[i], false, hoist))
      && (forall i :: 0 <= i < |mustNot| ==>
            Translatable(mustNot[i], hoist, false) && !Vanishes(mustNot[i], hoist) && (hoist ==> NoFilters(mustNot[i])))
      && (hoist ==> forall i :: 0 <= i < |should| ==> NoFilters(should[i]))
      && if should == [] then true
         else if must != [] || filter != [] then
           // optional: a MUST clause has to survive so that Lucene does not ask for one of them
           KeepsMust(q, hoist) || AllVanish(should, hoist)
         else
           // required: written side by side, so only SHOULD clauses may meet there
           && (forall i :: 0 <= i < |should| ==> Translatable(should[i], hoist, false))
           && (AllVanish(should, hoist)
               || (NoneVanishes(should, hoist)
                   && (|should| == 1 || forall i :: 0 <= i < |should| ==> ShouldOnly(should[i], hoist))))
  }

  // ----- shapes of the output

  predicate AllOccur(cs: seq<Clause>, occur: Occur) {
    forall i :: 0 <= i < |cs| ==> cs[i].occur == occur && cs[i].query.Group?
  }

  lemma {:induction false} VanishingNode(q: Query, hoist: bool)
    ensures Translate(q, hoist).0 == STAR <==> Vanishes(q, hoist)
    decreases q, 0
  {
    hide AddToQ, ShouldParts, AddToFq, Assemble;
    if q.Bool? {
      PartsShape(q.must, Must, hoist);
      PartsShape(q.mustNot, MustNot, hoist);
      if !hoist {
        PartsShape(q.filter, Must, false);
      }
      ShouldShape(q.should, hoist);
      OnlyStarIsStar(AddToQ(q.must, Must, hoist).0, AddToQ(q.mustNot, MustNot, hoist).0,
          FilterClauses(q.filter, hoist).0,
                     ShouldParts(q.should, hoist).0);
    }
  }

  lemma {:induction false} OnlyStarIsStar(m: seq<Clause>, n: seq<Clause>, f: seq<Clause>, s: seq<Clause>)
    requires AllOccur(m, Must) && AllOccur(n, MustNot) && AllOccur(f, Must)
    ensures Assemble(m + n + f, s) == STAR <==> m == [] && n == [] && f == [] && s == []
  {
    var all := if s == [] then m + n + f else m + n + f + [Clause(Should, Group(s))];
    assert all != [] ==> all[0].query.Group?;
    assert STAR[0].query.Everything?;
  }

  lemma {:induction false} PartsShape(qs: seq<Query>, occur: Occur, hoist: bool)
    ensures AllOccur(AddToQ(qs, occur, hoist).0, occur)
    ensures AddToQ(qs, occur, hoist).0 == [] <==> AllVanish(qs, hoist)
    decreases qs, 0
  {
    if qs != [] {
      var n := |qs| - 1;
      PartsShape(qs[..n], occur, hoist);
      VanishingNode(qs[n], hoist);
      assert qs == qs[..n] + [qs[n]];
    }
  }

  lemma {:induction false} ShouldShape(qs: seq<Query>, hoist: bool)
    ensures ShouldParts(qs, hoist).0 == [] <==> AllVanish(qs, hoist)
    decreases qs, 0
  {
    if qs != [] {
      var n := |qs| - 1;
      ShouldShape(qs[..n], hoist);
      VanishingNode(qs[n], hoist);
      NotEmpty(qs[n], hoist);
      assert qs == qs[..n] + [qs[n]];
    }
  }

  lemma {:induction false} NotEmpty(q: Query, hoist: bool)
    ensures Translate(q, hoist).0 != []
  {
  }

  lemma {:induction false} NothingHoisted(q: Query, hoist: bool)
    requires hoist ==> NoFilters(q)
    ensures Translate(q, hoist).1 == []
    decreases q, 0
  {
    if q.Bool? {
      NothingHoistedFrom(q.must, Must, hoist);
      NothingHoistedFrom(q.mustNot, MustNot, hoist);
      NothingHoistedFrom(q.should, Should, hoist);
      if !hoist {
        NothingHoistedFrom(q.filter, Must, hoist);
      }
    }
  }

  lemma {:induction false} NothingHoistedFrom(qs: seq<Query>, occur: Occur, hoist: bool)
    requires hoist ==> forall i :: 0 <= i < |qs| ==> NoFilters(qs[i])
    ensures AddToQ(qs, occur, hoist).1 == [] && ShouldParts(qs, hoist).1 == []
    decreases qs, 0
  {
    if qs != [] {
      NothingHoistedFrom(qs[..|qs| - 1], occur, hoist);
      NothingHoisted(qs[|qs| - 1], hoist);
    }
  }

  lemma {:induction false} OnlyShould(q: Query, hoist: bool)
    requires ShouldOnly(q, hoist)
    ensures forall i :: 0 <= i < |Translate(q, hoist).0| ==> Translate(q, hoist).0[i].occur == Should
  {
    if q.Bool? {
      PartsShape(q.must, Must, hoist);
      PartsShape(q.mustNot, MustNot, hoist);
      if !hoist {
        PartsShape(q.filter, Must, false);
      }
    }
  }

  // ----- meaning

  predicate AllSatisfied(d: Doc, qs: seq<Query>) {
    forall i :: 0 <= i < |qs| ==> Satisfies(d, qs[i])
  }

  predicate NoneSatisfied(d: Doc, qs: seq<Query>) {
    forall i :: 0 <= i < |qs| ==> !Satisfies(d, qs[i])
  }

  predicate SomeSatisfied(d: Doc, qs: seq<Query>) {
    exists i :: 0 <= i < |qs| && Satisfies(d, qs[i])
  }

  predicate AllHit(d: Doc, cs: seq<Clause>) {
    forall i :: 0 <= i < |cs| ==> Hits(d, cs[i])
  }

  predicate NoneHits(d: Doc, cs: seq<Clause>) {
    forall i :: 0 <= i < |cs| ==> !Hits(d, cs[i])
  }

  predicate SomeHits(d: Doc, cs: seq<Clause>) {
    exists i :: 0 <= i < |cs| && Hits(d, cs[i])
  }

  predicate Reads(d: Doc, cs: seq<Clause>, top: bool) {
    if top then MatchesTop(d, cs) else MatchesClauses(d, cs)
  }

  /** On the fragment the clauses and the hoisted filters together say what the node says. */
  lemma {:induction false} NodeMeaning(d: Doc, q: Query, hoist: bool, top: bool)
    requires Translatable(q, hoist, top)
    ensures Reads(d, Translate(q, hoist).0, top) && MatchesFilters(d, Translate(q, hoist).1) <==> Satisfies(d, q)
    decreases q, 1
  {
    if q.Bool? {
      BoolMeaning(d, q, hoist, top);
    } else {
      LeafMeaning(d, q, top);
    }
  }

  lemma {:induction false} LeafMeaning(d: Doc, q: Query, top: bool)
    requires !q.Bool? && Translatable(q, true, top)
    ensures Reads(d, Leaves(q), top) <==> Satisfies(d, q)
  {
    var c := Leaves(q)[0];
    assert Leaves(q) == [c];
    assert [c][0] == c;
    if q.MatchNone? {
      assert c.occur == MustNot && Hits(d, c);
      assert Hits(d, [c][0]) && !HasPositive([c]) && !MatchesClauses(d, [c]) && !MatchesTop(d, [c]);
    } else {
      assert c.occur == Should;
      assert Reads(d, [c], top) <==> Hits(d, c);
      match q
      case MatchAll => assert Hits(d, c) <==> Satisfies(d, q);
      case Test(_) => assert Hits(d, c) <==> Satisfies(d, q);
      case Terms(_, _) => assert Hits(d, c) <==> Satisfies(d, q);
      case Ids(_) => assert Hits(d, c) <==> Satisfies(d, q);
      case Range(_, _) => assert Hits(d, c) <==> Satisfies(d, q);
    }
  }

  /** MUST parts: every clause, restricting or not, has its say in q or in fq. */
  lemma {:induction false} MustMeaning(d: Doc, qs: seq<Query>, hoist: bool)
    requires forall i :: 0 <= i < |qs| ==> Translatable(qs[i], hoist, false)
    ensures AllHit(d, AddToQ(qs, Must, hoist).0) && MatchesFilters(d, AddToQ(qs, Must, hoist).1)
            <==> AllSatisfied(d, qs)
    decreases qs, 0
  {
    hide Translate, Satisfies, Translatable, Vanishes, NoFilters, MatchesClauses;
    if qs != [] {
      var n := |qs| - 1;
      MustMeaning(d, qs[..n], hoist);
      NodeMeaning(d, qs[n], hoist, false);
      PartAdded(d, AddToQ(qs[..n], Must, hoist), Translate(qs[n], hoist), Must);
      LastSatisfied(d, qs);
    }
  }

  lemma {:induction false} PartAdded(d: Doc, before: (seq<Clause>, seq<Filter>), one: (seq<Clause>, seq<Filter>),
                                     occur: Occur)
    ensures var parts := if one.0 == STAR then before.0 else before.0 + [Clause(occur, Group(one.0))];
            && (AllHit(d, parts) <==> AllHit(d, before.0) && MatchesClauses(d, one.0))
            && (one.0 != STAR ==> (NoneHits(d, parts) <==> NoneHits(d, before.0) && !MatchesClauses(d, one.0)))
    ensures MatchesFilters(d, before.1 + one.1) <==> MatchesFilters(d, before.1) && MatchesFilters(d, one.1)
  {
    FiltersOfSum(d, before.1, one.1);
    if one.0 == STAR {
      assert Hits(d, STAR[0]) && STAR[0].occur == Should;
    } else {
      var c := Clause(occur, Group(one.0));
      var parts := before.0 + [c];
      assert Hits(d, c) <==> MatchesClauses(d, one.0);
      assert parts[|before.0|] == c;
      assert forall i :: 0 <= i < |before.0| ==> parts[i] == before.0[i];
    }
  }

  lemma {:induction false} FiltersOfSum(d: Doc, fs: seq<Filter>, gs: seq<Filter>)
    ensures MatchesFilters(d, fs + gs) <==> MatchesFilters(d, fs) && MatchesFilters(d, gs)
  {
    assert forall i :: 0 <= i < |gs| ==> (fs + gs)[|fs| + i] == gs[i];
    assert forall i :: 0 <= i < |fs| ==> (fs + gs)[i] == fs[i];
  }

  lemma {:induction false} MustNotMeaning(d: Doc, qs: seq<Query>, hoist: bool)
    requires forall i :: 0 <= i < |qs| ==>
               Translatable(qs[i], hoist, false) && !Vanishes(qs[i], hoist) && (hoist ==> NoFilters(qs[i]))
    ensures NoneHits(d, AddToQ(qs, MustNot, hoist).0) <==> NoneSatisfied(d, qs)
    ensures AddToQ(qs, MustNot, hoist).1 == []
    decreases qs, 0
  {
    hide Translate, Satisfies, Translatable, Vanishes, NoFilters, MatchesClauses;
    NothingHoistedFrom(qs, MustNot, hoist);
    if qs != [] {
      var n := |qs| - 1;
      MustNotMeaning(d, qs[..n], hoist);
      NodeMeaning(d, qs[n], hoist, false);
      NothingHoisted(qs[n], hoist);
      VanishingNode(qs[n], hoist);
      PartAdded(d, AddToQ(qs[..n], MustNot, hoist), Translate(qs[n], hoist), MustNot);
      LastSatisfied(d, qs);
    }
  }

  lemma {:induction false} FilterMeaning(d: Doc, qs: seq<Query>)
    requires forall i :: 0 <= i < |qs| ==> Translatable(qs[i], false, true)
    ensures MatchesFilters(d, AddToFq(qs)) <==> AllSatisfied(d, qs)
    decreases qs, 0
  {
    hide Translate, Satisfies, Translatable, Vanishes, NoFilters, MatchesClauses;
    if qs != [] {
      var n := |qs| - 1;
      FilterMeaning(d, qs[..n]);
      FqMeaning(d, qs[n]);
      var one := [TranslateForFq(qs[n]).value];
      assert MatchesFilters(d, one) <==> MatchesFilter(d, one[0]);
      FiltersOfSum(d, AddToFq(qs[..n]), one);
      LastSatisfied(d, qs);
    }
  }

  lemma {:induction false} FqMeaning(d: Doc, q: Query)
    requires Translatable(q, false, true)
    ensures TranslateForFq(q).Some? && (MatchesFilter(d, TranslateForFq(q).value) <==> Satisfies(d, q))
    decreases q, 2
  {
    if !(q.Terms? && !Metadata(q.field)) {
      NodeMeaning(d, q, false, true);
      NothingHoisted(q, false);
    }
  }

  /** SHOULD clauses side by side: together they ask for one of the queries. */
  lemma {:induction false} ShouldMeaning(d: Doc, qs: seq<Query>, hoist: bool)
    requires forall i :: 0 <= i < |qs| ==>
               Translatable(qs[i], hoist, false) && !Vanishes(qs[i], hoist) && (hoist ==> NoFilters(qs[i]))
               && ShouldOnly(qs[i], hoist)
    ensures SomeHits(d, ShouldParts(qs, hoist).0) <==> SomeSatisfied(d, qs)
    ensures forall i :: 0 <= i < |ShouldParts(qs, hoist).0| ==> ShouldParts(qs, hoist).0[i].occur == Should
    decreases qs, 0
  {
    hide Translate, Satisfies, Translatable, Vanishes, NoFilters, MatchesClauses;
    if qs != [] {
      var n := |qs| - 1;
      ShouldMeaning(d, qs[..n], hoist);
      NodeMeaning(d, qs[n], hoist, false);
      NothingHoisted(qs[n], hoist);
      VanishingNode(qs[n], hoist);
      OnlyShould(qs[n], hoist);
      var parts, sub := ShouldParts(qs[..n], hoist).0, Translate(qs[n], hoist).0;
      AllShould(d, sub);
      HitsOfSum(d, parts, sub);
      LastSatisfied(d, qs);
    }
  }

  lemma {:induction false} LastSatisfied(d: Doc, qs: seq<Query>)
    requires qs != []
    ensures SomeSatisfied(d, qs) <==> SomeSatisfied(d, qs[..|qs| - 1]) || Satisfies(d, qs[|qs| - 1])
    ensures AllSatisfied(d, qs) <==> AllSatisfied(d, qs[..|qs| - 1]) && Satisfies(d, qs[|qs| - 1])
    ensures NoneSatisfied(d, qs) <==> NoneSatisfied(d, qs[..|qs| - 1]) && !Satisfies(d, qs[|qs| - 1])
  {
    hide Satisfies;
    var n := |qs| - 1;
    if SomeSatisfied(d, qs[..n]) {
      var i :| 0 <= i < n && Satisfies(d, qs[..n][i]);
      assert Satisfies(d, qs[i]);
    }
    if SomeSatisfied(d, qs) {
      var i :| 0 <= i < |qs| && Satisfies(d, qs[i]);
      assert i < n ==> Satisfies(d, qs[..n][i]);
    }
    assert forall i :: 0 <= i < n ==> qs[..n][i] == qs[i];
  }

  lemma {:induction false} HitsOfSum(d: Doc, cs: seq<Clause>, ds: seq<Clause>)
    ensures SomeHits(d, cs + ds) <==> SomeHits(d, cs) || SomeHits(d, ds)
    ensures AllHit(d, cs + ds) <==> AllHit(d, cs) && AllHit(d, ds)
    ensures NoneHits(d, cs + ds) <==> NoneHits(d, cs) && NoneHits(d, ds)
  {
    assert forall i :: 0 <= i < |ds| ==> (cs + ds)[|cs| + i] == ds[i];
    assert forall i :: 0 <= i < |cs| ==> (cs + ds)[i] == cs[i];
    if SomeHits(d, cs + ds) {
      var i :| 0 <= i < |cs + ds| && Hits(d, (cs + ds)[i]);
      assert if i < |cs| then Hits(d, cs[i]) else Hits(d, ds[i - |cs|]);
    }
  }

  lemma {:induction false} AllShould(d: Doc, cs: seq<Clause>)
    requires forall i :: 0 <= i < |cs| ==> cs[i].occur == Should
    ensures MatchesClauses(d, cs) <==> SomeHits(d, cs)
  {
  }

  /** Required should clauses: if anything of them is left in q, it asks for one of them; if not, one of them is met. */
  lemma {:induction false} RequiredMeaning(d: Doc, qs: seq<Query>, hoist: bool)
    requires qs != [] && forall i :: 0 <= i < |qs| ==> Translatable(qs[i], hoist, false) && (hoist ==> NoFilters(qs[i]))
    requires AllVanish(qs, hoist)
             || (NoneVanishes(qs, hoist) && (|qs| == 1 || forall i :: 0 <= i < |qs| ==> ShouldOnly(qs[i], hoist)))
    ensures var s := ShouldParts(qs, hoist).0;
            if s == [] then SomeSatisfied(d, qs) else MatchesClauses(d, s) <==> SomeSatisfied(d, qs)
    decreases qs, 1
  {
    hide Translate, Satisfies, Translatable, Vanishes, NoFilters;
    ShouldShape(qs, hoist);
    if AllVanish(qs, hoist) || |qs| == 1 {
      NodeMeaning(d, qs[0], hoist, false);
      NothingHoisted(qs[0], hoist);
      VanishingNode(qs[0], hoist);
      assert Hits(d, STAR[0]) && STAR[0].occur == Should;
      if !AllVanish(qs, hoist) {
        var sub := Translate(qs[0], hoist).0;
        assert qs[..0] == [] && [] + sub == sub;
        assert ShouldParts(qs, hoist).0 == sub;
        LastSatisfied(d, qs);
      }
    } else {
      ShouldMeaning(d, qs, hoist);
      AllShould(d, ShouldParts(qs, hoist).0);
    }
  }

  predicate Musts(d: Doc, cs: seq<Clause>) {
    forall i :: 0 <= i < |cs| && cs[i].occur == Must ==> Hits(d, cs[i])
  }

  predicate Nots(d: Doc, cs: seq<Clause>) {
    forall i :: 0 <= i < |cs| && cs[i].occur == MustNot ==> !Hits(d, cs[i])
  }

  predicate Shoulds(d: Doc, cs: seq<Clause>) {
    exists i :: 0 <= i < |cs| && cs[i].occur == Should && Hits(d, cs[i])
  }

  lemma {:induction false} SumOf(d: Doc, cs: seq<Clause>, ds: seq<Clause>)
    ensures Musts(d, cs + ds) <==> Musts(d, cs) && Musts(d, ds)
    ensures Nots(d, cs + ds) <==> Nots(d, cs) && Nots(d, ds)
    ensures Shoulds(d, cs + ds) <==> Shoulds(d, cs) || Shoulds(d, ds)
    ensures HasMust(cs + ds) <==> HasMust(cs) || HasMust(ds)
    ensures HasPositive(cs + ds) <==> HasPositive(cs) || HasPositive(ds)
  {
    hide Hits;
    var all := cs + ds;
    assert forall i :: 0 <= i < |cs| ==> all[i] == cs[i];
    assert forall i :: 0 <= i < |ds| ==> all[|cs| + i] == ds[i];
    assert forall i :: |cs| <= i < |all| ==> all[i] == ds[i - |cs|];
  }

  /** How Lucene reads MUST parts, MUST_NOT parts, further MUST parts and an optional SHOULD group. */
  lemma {:induction false} ReadParts(d: Doc, m: seq<Clause>, n: seq<Clause>, f: seq<Clause>, g: seq<Clause>)
    requires AllOccur(m, Must) && AllOccur(n, MustNot) && AllOccur(f, Must) && AllOccur(g, Should)
    ensures MatchesClauses(d, m + n + f + g) <==>
              AllHit(d, m) && AllHit(d, f) && NoneHits(d, n) && (m != [] || f != [] || SomeHits(d, g))
    ensures HasPositive(m + n + f + g) <==> m != [] || f != [] || g != []
    ensures m == [] && f == [] && g == [] ==> m + n + f + g == n
  {
    SumOf(d, m, n);
    SumOf(d, m + n, f);
    SumOf(d, m + n + f, g);
    OneKind(d, m, Must);
    OneKind(d, n, MustNot);
    OneKind(d, f, Must);
    OneKind(d, g, Should);
    ThreeParts(d, m + n + f + g);
  }

  lemma {:induction false} ThreeParts(d: Doc, cs: seq<Clause>)
    ensures MatchesClauses(d, cs) <==> Musts(d, cs) && Nots(d, cs) && (HasMust(cs) || Shoulds(d, cs))
  {
  }

  lemma {:induction false} OneKind(d: Doc, cs: seq<Clause>, occur: Occur)
    requires AllOccur(cs, occur)
    ensures Musts(d, cs) <==> occur != Must || AllHit(d, cs)
    ensures Nots(d, cs) <==> occur != MustNot || NoneHits(d, cs)
    ensures Shoulds(d, cs) <==> occur == Should && SomeHits(d, cs)
    ensures HasMust(cs) <==> occur == Must && cs != []
    ensures HasPositive(cs) <==> occur != MustNot && cs != []
  {
    hide Hits;
    if cs != [] {
      assert cs[0].occur == occur;
    }
  }

  /** The four lists of a bool node, each with what it means. */
  lemma {:induction false} BoolMeaning(d: Doc, q: Query, hoist: bool, top: bool)
    requires q.Bool? && Translatable(q, hoist, top)
    ensures Reads(d, Translate(q, hoist).0, top) && MatchesFilters(d, Translate(q, hoist).1) <==> Satisfies(d, q)
    decreases q, 0
  {
    hide AddToQ, AddToFq, ShouldParts, MatchesClauses, AllHit, NoneHits, MatchesFilters, Vanishes;
    var (m, mf) := AddToQ(q.must, Must, hoist);
    var (n, nf) := AddToQ(q.mustNot, MustNot, hoist);
    var (f, ff) := FilterClauses(q.filter, hoist);
    var (s, sf) := ShouldParts(q.should, hoist);
    MustMeaning(d, q.must, hoist);
    PartsShape(q.must, Must, hoist);
    MustNotMeaning(d, q.mustNot, hoist);
    PartsShape(q.mustNot, MustNot, hoist);
    FilterPart(d, q.filter, hoist);
    ShouldShape(q.should, hoist);
    NothingHoistedFrom(q.should, Should, hoist);
    FiltersOfSum(d, mf, ff);
    assert mf + nf + ff + sf == mf + ff;
    Assembled(d, m, n, f, s, top);
    assert Satisfies(d, q) <==>
             AllSatisfied(d, q.must) && AllSatisfied(d, q.filter) && NoneSatisfied(d, q.mustNot)
             && (q.should == [] || q.must != [] || q.filter != [] || SomeSatisfied(d, q.should));
    if q.should != [] && q.must == [] && q.filter == [] {
      RequiredMeaning(d, q.should, hoist);
    }
    SurvivorsOf(q, hoist);
  }

  lemma {:induction false} FilterPart(d: Doc, qs: seq<Query>, hoist: bool)
    requires forall i :: 0 <= i < |qs| ==> Translatable(qs[i], false, hoist)
    ensures AllOccur(FilterClauses(qs, hoist).0, Must)
    ensures AllHit(d, FilterClauses(qs, hoist).0) && MatchesFilters(d, FilterClauses(qs, hoist).1)
            <==> AllSatisfied(d, qs)
    ensures FilterClauses(qs, hoist).0 == [] <==> hoist || AllVanish(qs, false)
    decreases qs, 1
  {
    if hoist {
      FilterMeaning(d, qs);
    } else {
      MustMeaning(d, qs, false);
      PartsShape(qs, Must, false);
    }
  }

  lemma {:induction false} Assembled(d: Doc, m: seq<Clause>, n: seq<Clause>, f: seq<Clause>, s: seq<Clause>, top: bool)
    requires AllOccur(m, Must) && AllOccur(n, MustNot) && AllOccur(f, Must)
    ensures Reads(d, Assemble(m + n + f, s), top) <==>
              AllHit(d, m) && AllHit(d, f) && NoneHits(d, n)
              && (m != [] || f != [] || (if s == [] then top || n == [] else MatchesClauses(d, s)))
  {
    var g := if s == [] then [] else [Clause(Should, Group(s))];
    ReadParts(d, m, n, f, g);
    assert s != [] ==> (SomeHits(d, g) <==> MatchesClauses(d, s)) by {
      if s != [] {
        assert Hits(d, g[0]) <==> MatchesClauses(d, s);
      }
    }
    assert Hits(d, STAR[0]) && STAR[0].occur == Should;
    assert m + n + f + [] == m + n + f;
  }

  lemma {:induction false} SurvivorsOf(q: Query, hoist: bool)
    requires q.Bool?
    ensures Positive(q, hoist) ==>
              !AllVanish(q.must, hoist) || (!hoist && !AllVanish(q.filter, false)) || !AllVanish(q.should, hoist)
                || AllVanish(q.mustNot, hoist)
  {
  }

  /** The whole compiler: on the fragment, q and all fq filters select exactly the documents the query asks for. */
  lemma {:induction false} TranslationMeaning(d: Doc, q: Query)
    requires Translatable(q, true, true)
    ensures var (cs, fq) := TranslateQuery(q);
            MatchesTop(d, cs) && MatchesFilters(d, fq) <==> Satisfies(d, q)
  {
    if q.Terms? {
      assert Hits(d, STAR[0]) && STAR[0].occur == Should;
      assert HasPositive(STAR) && MatchesTop(d, STAR);
      var fq := TranslateQuery(q).1;
      assert fq == [fq[0]];
    } else {
      NodeMeaning(d, q, true, true);
    }
  }
}
