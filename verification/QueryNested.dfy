/** One level of nesting: which should lists and which exclusions the compiler gets right. */
module QueryNested {
  import opened Wrappers
  import opened QueryModel
  import opened QueryTranslation
  import opened QueryMeaning
  import opened QueryLimits

  predicate Single(q: Query) {
    q.Test? && !q.atom.Match?
  }

  predicate AllSingle(qs: seq<Query>) {
    forall i :: 0 <= i < |qs| ==> Single(qs[i])
  }

  predicate Conjunction(q: Query) {
    q.Bool? && q.must != [] && AllSingle(q.must) && q.mustNot == [] && q.filter == [] && q.should == []
  }

  predicate FilterOnly(q: Query) {
    q.Bool? && q.must == [] && q.mustNot == [] && q.filter != [] && AllSingle(q.filter) && q.should == []
  }

  /** The tests of a single test, a conjunction or a filter. */
  function TestsOf(q: Query): set<Atom>
    requires Single(q) || Conjunction(q) || FilterOnly(q)
  {
    if q.Test? then {q.atom} else Atoms(q.must) + Atoms(q.filter)
  }

  lemma {:induction false} SatisfiedByItsTests(q: Query, atoms: set<Atom>)
    requires Single(q) || Conjunction(q) || FilterOnly(q)
    ensures Satisfies(Having(atoms), q) <==> TestsOf(q) <= atoms
    ensures TestsOf(q) != {}
  {
    if q.Bool? {
      FlatList(atoms, q.must);
      FlatList(atoms, q.filter);
      var some := if q.must != [] then q.must[0] else q.filter[0];
      assert some.atom in Atoms(q.must) + Atoms(q.filter);
      assert Satisfies(Having(atoms), q)
             <==> AllSatisfied(Having(atoms), q.must) && AllSatisfied(Having(atoms), q.filter);
    }
  }

  // ----- should

  lemma {:induction false} ChoiceIsTranslatable(q: Query, hoist: bool)
    requires Single(q) || Conjunction(q)
    ensures Translatable(q, hoist, false) && NoFilters(q) && !Vanishes(q, hoist)
    ensures Single(q) ==> ShouldOnly(q, hoist)
  {
    if q.Bool? {
      assert Single(q.must[0]);
      assert !Vanishes(q.must[0], hoist);
      assert KeepsMust(q, hoist);
    }
  }

  /** What the clauses of one choice say where choices are written side by side. */
  lemma {:induction false} ChoiceText(d: Doc, q: Query, hoist: bool)
    requires Single(q) || Conjunction(q)
    ensures var cs := Translate(q, hoist).0;
            && cs != STAR && Nots(d, cs) && (HasMust(cs) <==> Conjunction(q))
            && (Musts(d, cs) <==> (Conjunction(q) ==> Satisfies(d, q)))
            && (Shoulds(d, cs) <==> Single(q) && Satisfies(d, q))
  {
    ChoiceIsTranslatable(q, hoist);
    VanishingNode(q, hoist);
    NothingHoisted(q, hoist);
    NodeMeaning(d, q, hoist, false);
    var cs := Translate(q, hoist).0;
    ThreeParts(d, cs);
    if q.Bool? {
      PartsShape(q.must, Must, hoist);
      assert AddToQ([], MustNot, hoist).0 == [] && FilterClauses([], hoist).0 == [] && ShouldParts([], hoist).0 == [];
      var m := AddToQ(q.must, Must, hoist).0;
      assert m + [] + [] == m;
      assert cs == Assemble(m, []);
      assert cs == m;
      OneKind(d, m, Must);
    } else {
      assert cs == [Clause(Should, Leaf(q.atom))];
      assert cs[0].occur == Should && (Hits(d, cs[0]) <==> d.holds(q.atom));
    }
  }

  predicate Choices(qs: seq<Query>) {
    forall i :: 0 <= i < |qs| ==> Single(qs[i]) || Conjunction(qs[i])
  }

  predicate NeededSatisfied(d: Doc, qs: seq<Query>) {
    forall i :: 0 <= i < |qs| && Conjunction(qs[i]) ==> Satisfies(d, qs[i])
  }

  predicate HasConjunction(qs: seq<Query>) {
    exists i :: 0 <= i < |qs| && Conjunction(qs[i])
  }

  lemma {:induction false} ChoicesText(d: Doc, qs: seq<Query>, hoist: bool)
    requires Choices(qs)
    ensures var parts := ShouldParts(qs, hoist).0;
            Nots(d, parts) && (HasMust(parts) <==> HasConjunction(qs)) && (Musts(d, parts) <==> NeededSatisfied(d, qs))
    ensures qs != [] ==> ShouldParts(qs, hoist).0 != []
  {
    hide Satisfies, Translate, Hits, Conjunction, Single;
    if qs != [] {
      var n := |qs| - 1;
      ChoicesText(d, qs[..n], hoist);
      ChoiceText(d, qs[n], hoist);
      var parts, sub := ShouldParts(qs[..n], hoist).0, Translate(qs[n], hoist).0;
      SumOf(d, parts, sub);
      LastNeeded(d, qs);
      assert sub != [] by {
        NotEmpty(qs[n], hoist);
      }
    }
  }

  lemma {:induction false} LastNeeded(d: Doc, qs: seq<Query>)
    requires qs != []
    ensures var n := |qs| - 1;
            && (NeededSatisfied(d, qs) <==>
                  NeededSatisfied(d, qs[..n]) && (Conjunction(qs[n]) ==> Satisfies(d, qs[n])))
            && (HasConjunction(qs) <==> HasConjunction(qs[..n]) || Conjunction(qs[n]))
  {
    hide Satisfies, Conjunction;
    var n := |qs| - 1;
    assert forall i :: 0 <= i < n ==> qs[..n][i] == qs[i];
  }

  /** For should lists of tests and of conjunctions, no test twice: the translation is right on all documents exactly if
      there is one choice only, or no conjunction among them. */
  lemma {:induction false} ShouldListExact(qs: seq<Query>)
    requires qs != [] && Choices(qs)
    requires forall i, j :: 0 <= i < j < |qs| ==> TestsOf(qs[i]) !! TestsOf(qs[j])
    ensures (forall d :: Agrees(d, Bool([], [], [], qs))) <==> |qs| == 1 || AllSingle(qs)
  {
    var q := Bool([], [], [], qs);
    if |qs| == 1 || AllSingle(qs) {
      ChoicesAreTranslatable(qs);
      forall d ensures Agrees(d, q) {
        TranslationMeaning(d, q);
      }
    } else {
      var i :| 0 <= i < |qs| && !Single(qs[i]);
      var j := if i == 0 then 1 else 0;
      ConjunctionIsNeeded(qs, i, j);
    }
  }

  lemma {:induction false} ChoicesAreTranslatable(qs: seq<Query>)
    requires qs != [] && Choices(qs) && (|qs| == 1 || AllSingle(qs))
    ensures Translatable(Bool([], [], [], qs), true, true)
  {
    forall i | 0 <= i < |qs|
      ensures Translatable(qs[i], true, false) && NoFilters(qs[i]) && !Vanishes(qs[i], true)
      ensures Single(qs[i]) ==> ShouldOnly(qs[i], true)
    {
      ChoiceIsTranslatable(qs[i], true);
    }
    hide Single, Conjunction, ShouldOnly, Vanishes;
    assert NoneVanishes(qs, true);
  }

  /** A document with just the tests of one choice is wanted, but not found if another choice is a conjunction. */
  lemma {:induction false} ConjunctionIsNeeded(qs: seq<Query>, i: nat, j: nat)
    requires Choices(qs) && i < |qs| && j < |qs| && Conjunction(qs[i]) && TestsOf(qs[i]) !! TestsOf(qs[j])
    ensures !Agrees(Having(TestsOf(qs[j])), Bool([], [], [], qs))
  {
    var d, q := Having(TestsOf(qs[j])), Bool([], [], [], qs);
    SatisfiedByItsTests(qs[j], TestsOf(qs[j]));
    SatisfiedByItsTests(qs[i], TestsOf(qs[j]));
    assert Satisfies(d, q) by {
      assert Satisfies(d, qs[j]);
    }
    hide Satisfies;
    ChoicesText(d, qs, true);
    var parts := ShouldParts(qs, true).0;
    ThreeParts(d, parts);
    assert !NeededSatisfied(d, qs);
    FlatTranslation(q) by {
      NothingHoistedFromChoices(qs);
    }
    assert TranslateQuery(q).0 == Assemble([] + [] + [], parts);
    Assembled(d, [], [], [], parts, true);
  }

  lemma {:induction false} NothingHoistedFromChoices(qs: seq<Query>)
    requires Choices(qs)
    ensures ShouldParts(qs, true).1 == []
  {
    forall i | 0 <= i < |qs| ensures NoFilters(qs[i]) {
      ChoiceIsTranslatable(qs[i], true);
    }
    NothingHoistedFrom(qs, Should, true);
  }

  // ----- exclusions

  predicate Excludable(q: Query) {
    Single(q) || FilterOnly(q)
  }

  lemma {:induction false} HoistedFilters(d: Doc, qs: seq<Query>, occur: Occur, i: nat)
    requires i < |qs| && MatchesFilters(d, AddToQ(qs, occur, true).1)
    ensures MatchesFilters(d, Translate(qs[i], true).1)
    decreases |qs|
  {
    hide Translate;
    var n := |qs| - 1;
    FiltersOfSum(d, AddToQ(qs[..n], occur, true).1, Translate(qs[n], true).1);
    if i < n {
      HoistedFilters(d, qs[..n], occur, i);
    }
  }

  /** For a conjunction of tests with exclusions of tests and of filters, no required test among the excluded: the
      translation is right on all documents exactly if no exclusion is a filter. */
  lemma {:induction false} ExclusionsExact(must: seq<Query>, mustNot: seq<Query>)
    requires AllSingle(must) && forall i :: 0 <= i < |mustNot| ==>
               Excludable(mustNot[i]) && TestsOf(mustNot[i]) !! Atoms(must)
    ensures (forall d :: Agrees(d, Bool(must, mustNot, [], []))) <==> AllSingle(mustNot)
  {
    var q := Bool(must, mustNot, [], []);
    if AllSingle(mustNot) {
      SinglesAreTranslatable(must, mustNot);
      forall d ensures Agrees(d, q) {
        TranslationMeaning(d, q);
      }
    } else {
      var i :| 0 <= i < |mustNot| && !Single(mustNot[i]);
      FilterIsRequired(must, mustNot, i);
    }
  }

  lemma {:induction false} SinglesAreTranslatable(must: seq<Query>, mustNot: seq<Query>)
    requires AllSingle(must) && AllSingle(mustNot)
    ensures Translatable(Bool(must, mustNot, [], []), true, true)
  {
    forall i | 0 <= i < |must| ensures Translatable(must[i], true, false) {
      assert Single(must[i]);
    }
    forall i | 0 <= i < |mustNot|
      ensures Translatable(mustNot[i], true, false) && !Vanishes(mustNot[i], true) && NoFilters(mustNot[i])
    {
      ChoiceIsTranslatable(mustNot[i], true);
    }
    hide Single, Vanishes;
  }

  lemma {:induction false} FilterIsRequired(must: seq<Query>, mustNot: seq<Query>, i: nat)
    requires AllSingle(must) && forall i :: 0 <= i < |mustNot| ==>
               Excludable(mustNot[i]) && TestsOf(mustNot[i]) !! Atoms(must)
    requires i < |mustNot| && FilterOnly(mustNot[i])
    ensures !Agrees(Having(Atoms(must)), Bool(must, mustNot, [], []))
  {
    var atoms, q := Atoms(must), Bool(must, mustNot, [], []);
    var d := Having(atoms);
    FlatList(atoms, must);
    forall j | 0 <= j < |mustNot| ensures !Satisfies(d, mustNot[j]) {
      SatisfiedByItsTests(mustNot[j], atoms);
    }
    assert Satisfies(d, q);
    if MatchesFilters(d, TranslateQuery(q).1) {
      FiltersOfExclusions(d, must, mustNot);
      HoistedFilters(d, mustNot, MustNot, i);
      FilterOfNode(d, mustNot[i]);
      assert false;
    }
  }

  lemma {:induction false} FiltersOfExclusions(d: Doc, must: seq<Query>, mustNot: seq<Query>)
    requires MatchesFilters(d, TranslateQuery(Bool(must, mustNot, [], [])).1)
    ensures MatchesFilters(d, AddToQ(mustNot, MustNot, true).1)
  {
    hide AddToQ, MatchesFilter;
    var a, b := AddToQ(must, Must, true).1, AddToQ(mustNot, MustNot, true).1;
    assert FilterClauses([], true).1 == [] && ShouldParts([], true).1 == [];
    assert TranslateQuery(Bool(must, mustNot, [], [])).1 == a + b + [] + [];
    assert a + b + [] + [] == a + b;
    FiltersOfSum(d, a, b);
  }

  /** The filters of an excluded filter node are hoisted: together they ask for the node. */
  lemma {:induction false} FilterOfNode(d: Doc, q: Query)
    requires FilterOnly(q)
    ensures MatchesFilters(d, Translate(q, true).1) <==> Satisfies(d, q)
  {
    forall i | 0 <= i < |q.filter| ensures Translatable(q.filter[i], false, true) {
      assert Single(q.filter[i]);
    }
    FilterMeaning(d, q.filter);
    assert AddToQ([], Must, true).1 == [] && AddToQ([], MustNot, true).1 == [] && ShouldParts([], true).1 == [];
    assert Translate(q, true).1 == [] + [] + AddToFq(q.filter) + [];
    assert [] + [] + AddToFq(q.filter) + [] == AddToFq(q.filter);
    assert Satisfies(d, q) <==> AllSatisfied(d, q.filter);
  }

  // ----- nested exclusions

  predicate ExclusionOnly(q: Query) {
    q.Bool? && q.must == [] && q.mustNot != [] && AllSingle(q.mustNot) && q.filter == [] && q.should == []
  }

  predicate Item(q: Query) {
    Single(q) || ExclusionOnly(q)
  }

  predicate Items(qs: seq<Query>) {
    forall i :: 0 <= i < |qs| ==> Item(qs[i])
  }

  function ItemTests(q: Query): set<Atom>
    requires Item(q)
  {
    if q.Test? then {q.atom} else Atoms(q.mustNot)
  }

  lemma {:induction false} ItemMeaning(q: Query, atoms: set<Atom>)
    requires Item(q)
    ensures Satisfies(Having(atoms), q) <==> if Single(q) then ItemTests(q) <= atoms else ItemTests(q) !! atoms
    ensures Single(q) ==> ItemTests(q) == {q.atom}
  {
    if q.Bool? {
      assert Satisfies(Having(atoms), q) <==> NoneSatisfied(Having(atoms), q.mustNot);
      if NoneSatisfied(Having(atoms), q.mustNot) {
        forall a | a in Atoms(q.mustNot) ensures a !in atoms {
          var i :| 0 <= i < |q.mustNot| && q.mustNot[i].Test? && q.mustNot[i].atom == a;
          assert !Satisfies(Having(atoms), q.mustNot[i]);
        }
      }
      if Atoms(q.mustNot) !! atoms {
        forall i | 0 <= i < |q.mustNot| ensures !Satisfies(Having(atoms), q.mustNot[i]) {
          assert Single(q.mustNot[i]);
          assert q.mustNot[i].atom in Atoms(q.mustNot);
        }
      }
    }
  }

  /** The clauses of an item match. */
  ghost predicate Found(d: Doc, q: Query) {
    Single(q) && Satisfies(d, q)
  }

  /** A nested list of exclusions matches nothing, and no clause of an item is hoisted or left out. */
  lemma {:induction false} ItemText(d: Doc, q: Query)
    requires Item(q)
    ensures var (cs, fs) := Translate(q, true);
            cs != STAR && fs == [] && (MatchesClauses(d, cs) <==> Found(d, q))
  {
    if q.Bool? {
      forall i | 0 <= i < |q.mustNot| ensures NoFilters(q.mustNot[i]) && !Vanishes(q.mustNot[i], true) {
        assert Single(q.mustNot[i]);
      }
      assert !Vanishes(q.mustNot[0], true);
      assert !AllVanish(q.mustNot, true);
      assert NoFilters(q);
      NestedNegation(d, q, true);
    } else {
      LeafMeaning(d, q, false);
    }
    VanishingNode(q, true);
    NothingHoisted(q, true);
  }

  ghost predicate AllFound(d: Doc, qs: seq<Query>) {
    forall i :: 0 <= i < |qs| ==> Found(d, qs[i])
  }

  ghost predicate NoneFound(d: Doc, qs: seq<Query>) {
    forall i :: 0 <= i < |qs| ==> !Found(d, qs[i])
  }

  lemma {:induction false} LastFound(d: Doc, qs: seq<Query>)
    requires qs != []
    ensures AllFound(d, qs) <==> AllFound(d, qs[..|qs| - 1]) && Found(d, qs[|qs| - 1])
    ensures NoneFound(d, qs) <==> NoneFound(d, qs[..|qs| - 1]) && !Found(d, qs[|qs| - 1])
  {
    hide Found;
    var n := |qs| - 1;
    assert forall i :: 0 <= i < n ==> qs[..n][i] == qs[i];
  }

  lemma {:induction false} ItemsText(d: Doc, qs: seq<Query>, occur: Occur)
    requires Items(qs)
    ensures var (parts, fs) := AddToQ(qs, occur, true);
            fs == [] && (AllHit(d, parts) <==> AllFound(d, qs)) && (NoneHits(d, parts) <==> NoneFound(d, qs))
  {
    if qs != [] {
      var n := |qs| - 1;
      ItemsText(d, qs[..n], occur);
      ItemText(d, qs[n]);
      LastFound(d, qs);
      PartAdded(d, AddToQ(qs[..n], occur, true), Translate(qs[n], true), occur);
      hide Translate, MatchesClauses, Hits, Item, Found, AllFound, NoneFound, AllHit, NoneHits;
    }
  }

  /** What the translation of required and excluded items selects. */
  lemma {:induction false} ItemsReading(d: Doc, must: seq<Query>, mustNot: seq<Query>)
    requires Items(must) && Items(mustNot)
    ensures var t := TranslateQuery(Bool(must, mustNot, [], []));
            MatchesTop(d, t.0) && MatchesFilters(d, t.1) <==>
              AllFound(d, must) && NoneFound(d, mustNot)
  {
    hide MatchesTop, Item, Found, AllFound, NoneFound;
    ItemsText(d, must, Must);
    ItemsText(d, mustNot, MustNot);
    PartsShape(must, Must, true);
    PartsShape(mustNot, MustNot, true);
    var m, n := AddToQ(must, Must, true).0, AddToQ(mustNot, MustNot, true).0;
    Assembled(d, m, n, [], [], true);
    assert ShouldParts([], true) == ([], []);
    FlatTranslation(Bool(must, mustNot, [], []));
    hide AddToQ, Assemble;
  }

  /** The tests of the single items of a list, or those of the others. */
  function TestsAmong(qs: seq<Query>, single: bool): set<Atom>
    requires Items(qs)
  {
    set i, a | 0 <= i < |qs| && Single(qs[i]) == single && a in ItemTests(qs[i]) :: a
  }

  ghost predicate Apart(qs: seq<Query>)
    requires Items(qs)
  {
    forall i, j :: 0 <= i < j < |qs| ==> ItemTests(qs[i]) !! ItemTests(qs[j])
  }

  lemma {:induction false} AtItems(must: seq<Query>, mustNot: seq<Query>)
    requires Items(must) && Items(mustNot) && Apart(must + mustNot)
    ensures Apart(must) && Apart(mustNot)
    ensures forall i, j :: 0 <= i < |must| && 0 <= j < |mustNot| ==> ItemTests(must[i]) !! ItemTests(mustNot[j])
  {
    hide Item, ItemTests;
    var all := must + mustNot;
    forall i, j | 0 <= i < |must| && 0 <= j < |mustNot| ensures ItemTests(must[i]) !! ItemTests(mustNot[j]) {
      assert all[i] == must[i] && all[|must| + j] == mustNot[j];
    }
    forall i, j | 0 <= i < j < |mustNot| ensures ItemTests(mustNot[i]) !! ItemTests(mustNot[j]) {
      assert all[|must| + i] == mustNot[i] && all[|must| + j] == mustNot[j];
    }
    forall i, j | 0 <= i < j < |must| ensures ItemTests(must[i]) !! ItemTests(must[j]) {
      assert all[i] == must[i] && all[j] == must[j];
    }
  }

  /** Where no test is there twice, the tests of one kind of item leave the items of the other kind alone. */
  lemma {:induction false} OtherKind(qs: seq<Query>, single: bool, i: nat)
    requires Items(qs) && Apart(qs) && i < |qs|
    ensures if Single(qs[i]) == single then ItemTests(qs[i]) <= TestsAmong(qs, single)
            else ItemTests(qs[i]) !! TestsAmong(qs, single)
  {
    hide Item, ItemTests;
    if Single(qs[i]) != single {
      forall a | a in TestsAmong(qs, single) ensures a !in ItemTests(qs[i]) {
        var j :| 0 <= j < |qs| && Single(qs[j]) == single && a in ItemTests(qs[j]);
        assert i < j || j < i;
      }
    }
  }

  lemma {:induction false} OtherList(must: seq<Query>, mustNot: seq<Query>, single: bool)
    requires Items(must) && Items(mustNot) && Apart(must + mustNot)
    ensures forall i :: 0 <= i < |must| ==> ItemTests(must[i]) !! TestsAmong(mustNot, single)
    ensures forall i :: 0 <= i < |mustNot| ==> ItemTests(mustNot[i]) !! TestsAmong(must, single)
  {
    AtItems(must, mustNot);
    hide Item, ItemTests;
  }

  lemma {:induction false} SomeTest(q: Query)
    requires Item(q)
    ensures ItemTests(q) != {}
  {
    if q.Bool? {
      assert Single(q.mustNot[0]);
      assert q.mustNot[0].atom in Atoms(q.mustNot);
    }
  }

  /** For required and excluded tests, and nested exclusions of tests on either side, no test twice: the translation is
      right on all documents exactly if there are no nested exclusions. */
  lemma {:induction false} NegationsExact(must: seq<Query>, mustNot: seq<Query>)
    requires Items(must) && Items(mustNot) && Apart(must + mustNot)
    ensures (forall d :: Agrees(d, Bool(must, mustNot, [], []))) <==> AllSingle(must) && AllSingle(mustNot)
  {
    var q := Bool(must, mustNot, [], []);
    if AllSingle(must) && AllSingle(mustNot) {
      forall d ensures Agrees(d, q) {
        ItemsReading(d, must, mustNot);
        assert forall i :: 0 <= i < |must| ==> (Found(d, must[i]) <==> Satisfies(d, must[i]));
        assert forall i :: 0 <= i < |mustNot| ==> (Found(d, mustNot[i]) <==> Satisfies(d, mustNot[i]));
      }
    } else if !AllSingle(must) {
      var i :| 0 <= i < |must| && !Single(must[i]);
      RequiredExclusion(must, mustNot, i);
    } else {
      var j :| 0 <= j < |mustNot| && !Single(mustNot[j]);
      ExcludedExclusion(must, mustNot, j);
    }
  }

  /** What is asked for is nothing special, but a required exclusion is never found. */
  lemma {:induction false} RequiredExclusion(must: seq<Query>, mustNot: seq<Query>, i: nat)
    requires Items(must) && Items(mustNot) && Apart(must + mustNot)
    requires i < |must| && !Single(must[i])
    ensures !Agrees(Having(TestsAmong(must, true) + TestsAmong(mustNot, false)), Bool(must, mustNot, [], []))
  {
    var atoms := TestsAmong(must, true) + TestsAmong(mustNot, false);
    var d := Having(atoms);
    AtItems(must, mustNot);
    OtherList(must, mustNot, false);
    OtherList(must, mustNot, true);
    ItemsReading(d, must, mustNot);
    assert !Found(d, must[i]);
    hide Item, ItemTests, TestsAmong, MatchesTop, MatchesFilters, TranslateQuery, Single;
    forall k | 0 <= k < |must| ensures Satisfies(d, must[k]) {
      ItemMeaning(must[k], atoms);
      OtherKind(must, true, k);
    }
    forall k | 0 <= k < |mustNot| ensures !Satisfies(d, mustNot[k]) {
      ItemMeaning(mustNot[k], atoms);
      OtherKind(mustNot, false, k);
      SomeTest(mustNot[k]);
    }
  }

  /** An excluded exclusion asks for one of its tests, but the clause excludes nothing. */
  lemma {:induction false} ExcludedExclusion(must: seq<Query>, mustNot: seq<Query>, j: nat)
    requires Items(must) && Items(mustNot) && Apart(must + mustNot)
    requires AllSingle(must) && j < |mustNot| && !Single(mustNot[j])
    ensures !Agrees(Having(TestsAmong(must, true)), Bool(must, mustNot, [], []))
  {
    var atoms := TestsAmong(must, true);
    var d := Having(atoms);
    AtItems(must, mustNot);
    OtherList(must, mustNot, true);
    ItemsReading(d, must, mustNot);
    ItemMeaning(mustNot[j], atoms);
    assert !Satisfies(d, Bool(must, mustNot, [], []));
    hide Item, ItemTests, TestsAmong, MatchesTop, MatchesFilters, TranslateQuery, Satisfies;
    forall k | 0 <= k < |must| ensures Found(d, must[k]) {
      ItemMeaning(must[k], atoms);
      OtherKind(must, true, k);
    }
    forall k | 0 <= k < |mustNot| ensures !Found(d, mustNot[k]) {
      ItemMeaning(mustNot[k], atoms);
      SomeTest(mustNot[k]);
    }
  }
}
