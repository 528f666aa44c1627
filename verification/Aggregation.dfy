/** Aggregating the results of several test runs: aggregator.py. Numbers are exact. */
module Aggregation {
  import opened Wrappers

  datatype Value = Null | Num(x: real) | Text(s: string) | List(items: seq<Value>) | Dict(fields: map<string, Value>)

  // ----- heights, for termination

  ghost function Max(a: nat, b: nat): nat {
    if a < b then b else a
  }

  ghost function Height(v: Value): nat
    decreases v, if v.List? then |v.items| + 1 else if v.Dict? then |v.fields| + 1 else 0
  {
    match v
    case List(items) => 1 + HeightOfItems(v, |items|)
    case Dict(fields) => 1 + HeightOfFields(v, fields.Keys)
    case _ => 0
  }

  ghost function HeightOfItems(v: Value, n: nat): nat
    requires v.List? && n <= |v.items|
    decreases v, n
  {
    if n == 0 then 0 else Max(HeightOfItems(v, n - 1), Height(v.items[n - 1]))
  }

  ghost function AnyOf(keys: set<string>): (k: string)
    requires keys != {}
    ensures k in keys
  {
    var k :| k in keys; k
  }

  ghost function HeightOfFields(v: Value, keys: set<string>): nat
    requires v.Dict? && keys <= v.fields.Keys
    decreases v, |keys|
  {
    if keys == {} then 0
    else
      var k := AnyOf(keys);
      Max(HeightOfFields(v, keys - {k}), Height(v.fields[k]))
  }

  ghost function MaxHeight(elements: seq<Value>): nat {
    if elements == [] then 0 else Max(MaxHeight(elements[..|elements| - 1]), Height(elements[|elements| - 1]))
  }

  lemma {:induction false} ItemIsLower(v: Value, n: nat, i: nat)
    requires v.List? && i < n <= |v.items|
    ensures Height(v.items[i]) <= HeightOfItems(v, n)
  {
    if i < n - 1 {
      ItemIsLower(v, n - 1, i);
    }
  }

  lemma {:induction false} FieldIsLower(v: Value, keys: set<string>, key: string)
    requires v.Dict? && keys <= v.fields.Keys && key in keys
    ensures Height(v.fields[key]) <= HeightOfFields(v, keys)
    decreases |keys|
  {
    var k := AnyOf(keys);
    if k != key {
      FieldIsLower(v, keys - {k}, key);
    }
  }

  lemma {:induction false} ElementIsLower(elements: seq<Value>, i: nat)
    requires i < |elements|
    ensures Height(elements[i]) <= MaxHeight(elements)
  {
    if i < |elements| - 1 {
      ElementIsLower(elements[..|elements| - 1], i);
    }
  }

  lemma {:induction false} LowerIsLower(elements: seq<Value>, h: nat)
    requires forall i :: 0 <= i < |elements| ==> Height(elements[i]) <= h
    ensures MaxHeight(elements) <= h
  {
    if elements != [] {
      LowerIsLower(elements[..|elements| - 1], h);
    }
  }

  // ----- aggregation

  predicate AllNumbers(elements: seq<Value>) {
    forall i :: 0 <= i < |elements| ==> elements[i].Num?
  }

  predicate AllDicts(elements: seq<Value>) {
    forall i :: 0 <= i < |elements| ==> elements[i].Dict?
  }

  predicate AllLists(elements: seq<Value>) {
    forall i :: 0 <= i < |elements| ==> elements[i].List?
  }

  function Sum(elements: seq<Value>): real
    requires AllNumbers(elements)
  {
    if elements == [] then 0.0 else Sum(elements[..|elements| - 1]) + elements[|elements| - 1].x
  }

  function Keys(elements: seq<Value>): set<string>
    requires AllDicts(elements)
  {
    if elements == [] then {} else Keys(elements[..|elements| - 1]) + elements[|elements| - 1].fields.Keys
  }

  function Longest(elements: seq<Value>): nat
    requires AllLists(elements)
  {
    if elements == [] then 0
    else
      var n, m := Longest(elements[..|elements| - 1]), |elements[|elements| - 1].items|;
      if n < m then m else n
  }

  /** The values of one key, None where it is missing. */
  function Column(elements: seq<Value>, key: string): (column: seq<Value>)
    requires AllDicts(elements)
    ensures |column| == |elements|
  {
    seq(|elements|, i requires 0 <= i < |elements| =>
      if key in elements[i].fields then elements[i].fields[key] else Null)
  }

  function Row(elements: seq<Value>, k: nat): (row: seq<Value>)
    requires AllLists(elements)
    ensures |row| == |elements|
  {
    seq(|elements|, i requires 0 <= i < |elements| =>
      if k < |elements[i].items| then elements[i].items[k] else Null)
  }

  function FirstPresent(elements: seq<Value>): Value {
    if elements == [] then Null else if elements[0] != Null then elements[0] else FirstPresent(elements[1..])
  }

  lemma {:induction false} ColumnIsLower(elements: seq<Value>, key: string)
    requires AllDicts(elements) && elements != []
    ensures MaxHeight(Column(elements, key)) < MaxHeight(elements)
  {
    ElementIsLower(elements, 0);
    forall i | 0 <= i < |elements| ensures Height(Column(elements, key)[i]) <= MaxHeight(elements) - 1 {
      ElementIsLower(elements, i);
      if key in elements[i].fields {
        FieldIsLower(elements[i], elements[i].fields.Keys, key);
      }
    }
    LowerIsLower(Column(elements, key), MaxHeight(elements) - 1);
  }

  lemma {:induction false} RowIsLower(elements: seq<Value>, k: nat)
    requires AllLists(elements) && elements != []
    ensures MaxHeight(Row(elements, k)) < MaxHeight(elements)
  {
    ElementIsLower(elements, 0);
    forall i | 0 <= i < |elements| ensures Height(Row(elements, k)[i]) <= MaxHeight(elements) - 1 {
      ElementIsLower(elements, i);
      if k < |elements[i].items| {
        ItemIsLower(elements[i], |elements[i].items|, k);
      }
    }
    LowerIsLower(Row(elements, k), MaxHeight(elements) - 1);
  }

  function Aggregate(elements: seq<Value>): Value
    decreases MaxHeight(elements), 1
  {
    if elements == [] then Null
    else if AllNumbers(elements) then Num(Sum(elements) / |elements| as real)
    else if AllDicts(elements) then
      Dict(map key | key in Keys(elements) :: AggregateColumn(elements, key))
    else if AllLists(elements) then
      List(seq(Longest(elements), k requires 0 <= k => AggregateRow(elements, k)))
    else FirstPresent(elements)
  }

  function AggregateColumn(elements: seq<Value>, key: string): Value
    requires AllDicts(elements) && elements != []
    decreases MaxHeight(elements), 0
  {
    ColumnIsLower(elements, key);
    Aggregate(Column(elements, key))
  }

  function AggregateRow(elements: seq<Value>, k: nat): Value
    requires AllLists(elements) && elements != []
    decreases MaxHeight(elements), 0
  {
    RowIsLower(elements, k);
    Aggregate(Row(elements, k))
  }

  // ----- copies

  /** Aggregating copies of one result returns that result. */
  lemma {:induction false} CopiesAggregateToThemselves(v: Value, n: nat)
    requires n > 0
    ensures Aggregate(seq(n, _ => v)) == v
    decreases v
  {
    var copies := seq(n, _ => v);
    match v
    case Num(x) => SumOfCopies(x, n);
    case Dict(fields) =>
      assert !AllNumbers(copies) by { assert copies[0].Dict?; }
      KeysOfCopies(v, n);
      forall key | key in fields ensures AggregateColumn(copies, key) == fields[key] {
        assert Column(copies, key) == seq(n, _ => fields[key]);
        CopiesAggregateToThemselves(fields[key], n);
      }
      assert Aggregate(copies).Dict? && Aggregate(copies).fields == fields;
    case List(items) =>
      assert !AllNumbers(copies) && !AllDicts(copies) by { assert copies[0].List?; }
      LongestOfCopies(v, n);
      forall k | 0 <= k < |items| ensures AggregateRow(copies, k) == items[k] {
        assert Row(copies, k) == seq(n, _ => items[k]);
        CopiesAggregateToThemselves(items[k], n);
      }
      assert Aggregate(copies).List? && Aggregate(copies).items == items;
    case _ =>
      assert copies[0] == v;
      assert !AllNumbers(copies) && !AllDicts(copies) && !AllLists(copies);
      if v == Null {
        NothingPresent(copies);
      }
  }

  lemma {:induction false} SumOfCopies(x: real, n: nat)
    ensures Sum(seq(n, _ => Num(x))) == n as real * x
  {
    if n > 0 {
      assert seq(n, _ => Num(x))[..n - 1] == seq(n - 1, _ => Num(x));
      SumOfCopies(x, n - 1);
    }
  }

  lemma {:induction false} KeysOfCopies(v: Value, n: nat)
    requires v.Dict? && n > 0
    ensures Keys(seq(n, _ => v)) == v.fields.Keys
  {
    assert seq(n, _ => v)[..n - 1] == seq(n - 1, _ => v);
    if n > 1 {
      KeysOfCopies(v, n - 1);
    }
  }

  lemma {:induction false} LongestOfCopies(v: Value, n: nat)
    requires v.List? && n > 0
    ensures Longest(seq(n, _ => v)) == |v.items|
  {
    assert seq(n, _ => v)[..n - 1] == seq(n - 1, _ => v);
    if n > 1 {
      LongestOfCopies(v, n - 1);
    }
  }

  lemma {:induction false} NothingPresent(elements: seq<Value>)
    requires forall i :: 0 <= i < |elements| ==> elements[i] == Null
    ensures FirstPresent(elements) == Null
  {
    if elements != [] {
      NothingPresent(elements[1..]);
    }
  }

  // ----- bounds

  datatype Step = Field(key: string) | Item(k: nat)

  /** The value at the end of a path. */
  function At(v: Value, path: seq<Step>): Option<Value>
    decreases |path|
  {
    if path == [] then Some(v)
    else match path[0]
      case Field(key) => if v.Dict? && key in v.fields then At(v.fields[key], path[1..]) else None
      case Item(k) => if v.List? && k < |v.items| then At(v.items[k], path[1..]) else None
  }

  predicate NumberAt(v: Value, path: seq<Step>) {
    var found := At(v, path);
    found.Some? && found.value.Num?
  }

  function NumberOf(v: Value, path: seq<Step>): (number: Value)
    requires NumberAt(v, path)
    ensures number.Num?
  {
    At(v, path).value
  }

  function NumbersAt(elements: seq<Value>, path: seq<Step>): (numbers: seq<Value>)
    requires forall i :: 0 <= i < |elements| ==> NumberAt(elements[i], path)
    ensures |numbers| == |elements| && AllNumbers(numbers)
  {
    seq(|elements|, i requires 0 <= i < |elements| && NumberAt(elements[i], path) => NumberOf(elements[i], path))
  }

  /** Wherever all results have a number, the aggregate has their average. */
  lemma {:induction false} AverageWhereAllHaveNumbers(elements: seq<Value>, path: seq<Step>)
    requires elements != [] && forall i :: 0 <= i < |elements| ==> NumberAt(elements[i], path)
    ensures At(Aggregate(elements), path) == Some(Num(Sum(NumbersAt(elements, path)) / |elements| as real))
    decreases |path|
  {
    assert NumberAt(elements[0], path);
    if path == [] {
      forall i | 0 <= i < |elements| ensures elements[i].Num? {
        assert NumberAt(elements[i], path);
      }
      assert NumbersAt(elements, path) == elements;
    } else {
      match path[0]
      case Field(key) =>
        forall i | 0 <= i < |elements| ensures elements[i].Dict? && key in elements[i].fields {
          assert NumberAt(elements[i], path);
        }
        assert !AllNumbers(elements) by { assert elements[0].Dict?; }
        var column := Column(elements, key);
        forall i | 0 <= i < |elements| ensures NumberAt(column[i], path[1..]) {
          assert NumberAt(elements[i], path);
        }
        AverageWhereAllHaveNumbers(column, path[1..]);
        KeysHaveAll(elements, key, 0);
        assert NumbersAt(column, path[1..]) == NumbersAt(elements, path);
      case Item(k) =>
        forall i | 0 <= i < |elements| ensures elements[i].List? && k < |elements[i].items| {
          assert NumberAt(elements[i], path);
        }
        assert !AllNumbers(elements) && !AllDicts(elements) by { assert elements[0].List?; }
        var row := Row(elements, k);
        forall i | 0 <= i < |elements| ensures NumberAt(row[i], path[1..]) {
          assert NumberAt(elements[i], path);
        }
        AverageWhereAllHaveNumbers(row, path[1..]);
        LongestIsLongest(elements, 0);
        assert NumbersAt(row, path[1..]) == NumbersAt(elements, path);
    }
  }

  lemma {:induction false} KeysHaveAll(elements: seq<Value>, key: string, i: nat)
    requires AllDicts(elements) && i < |elements| && key in elements[i].fields
    ensures key in Keys(elements)
  {
    if i < |elements| - 1 {
      KeysHaveAll(elements[..|elements| - 1], key, i);
    }
  }

  lemma {:induction false} LongestIsLongest(elements: seq<Value>, i: nat)
    requires AllLists(elements) && i < |elements|
    ensures |elements[i].items| <= Longest(elements)
  {
    if i < |elements| - 1 {
      LongestIsLongest(elements[..|elements| - 1], i);
    }
  }

  lemma {:induction false} SumWithin(elements: seq<Value>, low: real, high: real)
    requires AllNumbers(elements) && forall i :: 0 <= i < |elements| ==> low <= elements[i].x <= high
    ensures Weighs(Sum(elements), |elements|, low, high)
  {
    hide Weighs;
    if elements == [] {
      NothingWithin(low, high);
    } else {
      var n := |elements| - 1;
      SumWithin(elements[..n], low, high);
      NextWithin(Sum(elements[..n]), n, elements[n].x, 1, low, high);
    }
  }

  lemma {:induction false} QuotientWithin(sum: real, n: real, low: real, high: real)
    requires n > 0.0 && n * low <= sum <= n * high
    ensures low <= sum / n <= high
  {
    var q := sum / n;
    assert q * n == sum;
    if q < low {
      ScaleLess(q, low, n);
      assert false;
    }
    if q > high {
      ScaleLess(high, q, n);
      assert false;
    }
  }

  lemma {:induction false} ScaleLess(a: real, b: real, n: real)
    requires a < b && n > 0.0
    ensures a * n < b * n
  {
  }

  /** Wherever all results have a number, that of the aggregate lies between the least and the greatest of them. */
  lemma {:induction false} AggregateWithin(elements: seq<Value>, path: seq<Step>, low: real, high: real)
    requires elements != []
    requires forall i :: 0 <= i < |elements| ==>
               NumberAt(elements[i], path) && low <= At(elements[i], path).value.x <= high
    ensures NumberAt(Aggregate(elements), path) && low <= At(Aggregate(elements), path).value.x <= high
  {
    AverageWhereAllHaveNumbers(elements, path);
    SumWithin(NumbersAt(elements, path), low, high);
    hide Aggregate, At, Sum, Weighs;
    AverageWithin(Sum(NumbersAt(elements, path)), |elements|, low, high);
  }

  /** A number that one result lacks is not averaged: the first that is there is taken. */
  lemma {:induction false} MissingIsNotAveraged(elements: seq<Value>, key: string, i: nat, j: nat)
    requires AllDicts(elements) && i < |elements| && j < |elements|
    requires key in elements[i].fields && elements[i].fields[key].Num? && key !in elements[j].fields
    ensures var result := Aggregate(elements);
            result.Dict? && key in result.fields && result.fields[key] == FirstPresent(Column(elements, key))
  {
    KeysHaveAll(elements, key, i);
    var column := Column(elements, key);
    assert !column[i].Dict? && !column[i].List? && !column[j].Num?;
    assert !AllNumbers(column) && !AllDicts(column) && !AllLists(column);
    assert !AllNumbers(elements) by { assert elements[i].Dict?; }
    assert Aggregate(elements).fields[key] == AggregateColumn(elements, key) == Aggregate(column);
  }

  /** In an aggregate of dictionaries are the keys of all of them, in one of lists as many items as the longest has. */
  lemma {:induction false} NothingIsDropped(elements: seq<Value>)
    requires elements != []
    ensures AllDicts(elements) ==>
              Aggregate(elements).Dict? && forall key :: key in Aggregate(elements).fields <==> HasKey(elements, key)
    ensures AllLists(elements) && !AllDicts(elements) ==>
              && Aggregate(elements).List?
              && (forall i :: 0 <= i < |elements| ==> |elements[i].items| <= |Aggregate(elements).items|)
              && exists i :: 0 <= i < |elements| && |elements[i].items| == |Aggregate(elements).items|
  {
    assert AllDicts(elements) || AllLists(elements) ==> !AllNumbers(elements) by {
      assert !elements[0].Num? || elements[0].Num?;
    }
    if AllDicts(elements) {
      forall key {
        KeysAre(elements, key);
      }
    } else if AllLists(elements) {
      LongestIs(elements);
    }
  }

  ghost predicate HasKey(elements: seq<Value>, key: string)
    requires AllDicts(elements)
  {
    exists i :: 0 <= i < |elements| && key in elements[i].fields
  }

  lemma {:induction false} KeysAre(elements: seq<Value>, key: string)
    requires AllDicts(elements)
    ensures key in Keys(elements) <==> HasKey(elements, key)
  {
    if elements != [] {
      var n := |elements| - 1;
      KeysAre(elements[..n], key);
      assert elements == elements[..n] + [elements[n]];
    }
  }

  lemma {:induction false} LongestIs(elements: seq<Value>)
    requires AllLists(elements) && elements != []
    ensures forall i :: 0 <= i < |elements| ==> |elements[i].items| <= Longest(elements)
    ensures exists i :: 0 <= i < |elements| && |elements[i].items| == Longest(elements)
  {
    var n := |elements| - 1;
    if n > 0 {
      LongestIs(elements[..n]);
      var i :| 0 <= i < n && |elements[..n][i].items| == Longest(elements[..n]);
      assert |elements[i].items| == Longest(elements[..n]);
      assert elements == elements[..n] + [elements[n]];
    } else {
      assert elements[..0] == [];
      assert |elements[0].items| == Longest(elements);
    }
  }

  /** The first that is there. */
  lemma {:induction false} FirstPresentIs(elements: seq<Value>) returns (i: nat)
    ensures i <= |elements| && forall j :: 0 <= j < i ==> elements[j] == Null
    ensures if i < |elements| then FirstPresent(elements) == elements[i] != Null else FirstPresent(elements) == Null
  {
    i := 0;
    if elements != [] && elements[0] == Null {
      i := FirstPresentIs(elements[1..]);
      i := i + 1;
    }
  }

  /** Nor is an item that a shorter list lacks. */
  lemma {:induction false} MissingItemIsNotAveraged(elements: seq<Value>, k: nat, i: nat, j: nat)
    requires AllLists(elements) && i < |elements| && j < |elements|
    requires k < |elements[i].items| && elements[i].items[k].Num? && k >= |elements[j].items|
    ensures var result := Aggregate(elements);
            result.List? && k < |result.items| && result.items[k] == FirstPresent(Row(elements, k))
  {
    LongestIsLongest(elements, i);
    var row := Row(elements, k);
    assert !row[i].Dict? && !row[i].List? && !row[j].Num?;
    assert !AllNumbers(row) && !AllDicts(row) && !AllLists(row);
    assert !AllNumbers(elements) && !AllDicts(elements) by { assert elements[i].List?; }
    assert Aggregate(elements).items[k] == AggregateRow(elements, k) == Aggregate(row);
  }

  // ----- averages weighted by iterations

  function Total(iterations: seq<nat>): nat {
    if iterations == [] then 0 else Total(iterations[..|iterations| - 1]) + iterations[|iterations| - 1]
  }

  function Times(value: real, iterations: nat): real {
    value * iterations as real
  }

  /** The sum over the first n pairs. */
  function WeightedSum(values: seq<real>, iterations: seq<nat>, n: nat): real
    requires n <= |values| && n <= |iterations|
  {
    if n == 0 then 0.0 else WeightedSum(values, iterations, n - 1) + Times(values[n - 1], iterations[n - 1])
  }

  /** Pairs are taken as far as both lists go, but all iterations are counted. */
  function WeightedAverage(values: seq<real>, iterations: seq<nat>): real
    requires Total(iterations) > 0
  {
    var n := if |values| < |iterations| then |values| else |iterations|;
    WeightedSum(values, iterations, n) / Total(iterations) as real
  }

  lemma {:induction false} NoTotal()
    ensures Total([]) == 0
  {
  }

  lemma {:induction false} TotalNext(iterations: seq<nat>, n: nat)
    requires 0 < n <= |iterations|
    ensures Total(iterations[..n]) == Total(iterations[..n - 1]) + iterations[n - 1]
  {
    assert iterations[..n][..n - 1] == iterations[..n - 1];
  }

  /** A sum of numbers from low to high that weigh so much together. */
  predicate Weighs(sum: real, weight: nat, low: real, high: real) {
    weight as real * low <= sum <= weight as real * high
  }

  lemma {:induction false} WeightedSumWithin(values: seq<real>, iterations: seq<nat>, n: nat, low: real, high: real)
    requires n <= |values| && n <= |iterations|
    requires forall i :: 0 <= i < n && iterations[i] > 0 ==> low <= values[i] <= high
    ensures Weighs(WeightedSum(values, iterations, n), Total(iterations[..n]), low, high)
  {
    hide Weighs, Total, Times;
    if n == 0 {
      NothingWithin(low, high);
      assert iterations[..0] == [] && Total([]) == 0 by {
        NoTotal();
      }
    } else {
      WeightedSumWithin(values, iterations, n - 1, low, high);
      TotalNext(iterations, n);
      NextWithin(WeightedSum(values, iterations, n - 1), Total(iterations[..n - 1]), values[n - 1], iterations[n - 1],
        low, high);
    }
  }

  lemma {:induction false} NothingWithin(low: real, high: real)
    ensures Weighs(0.0, 0, low, high)
  {
  }

  lemma {:induction false} AverageWithin(sum: real, n: nat, low: real, high: real)
    requires n > 0 && Weighs(sum, n, low, high)
    ensures low <= sum / n as real <= high
  {
    QuotientWithin(sum, n as real, low, high);
  }

  lemma {:induction false} NextWithin(sum: real, weight: nat, x: real, w: nat, low: real, high: real)
    requires Weighs(sum, weight, low, high) && (w > 0 ==> low <= x <= high)
    ensures Weighs(sum + Times(x, w), weight + w, low, high)
  {
    if w > 0 {
      Scale(x, w as real, low, high);
    }
    AddWithin(sum, x * w as real, weight as real, w as real, low, high);
  }

  lemma {:induction false} AddWithin(a: real, b: real, t: real, w: real, low: real, high: real)
    requires t * low <= a <= t * high && w * low <= b <= w * high
    ensures (t + w) * low <= a + b <= (t + w) * high
  {
  }

  lemma {:induction false} Scale(x: real, w: real, low: real, high: real)
    requires w >= 0.0 && low <= x <= high
    ensures w * low <= x * w <= w * high
  {
  }

  /** With a value for every run, the weighted average lies between the least and the greatest value. */
  lemma {:induction false} WeightedAverageWithin(values: seq<real>, iterations: seq<nat>, low: real, high: real)
    requires |values| == |iterations| && Total(iterations) > 0
    requires forall i :: 0 <= i < |values| ==> low <= values[i] <= high
    ensures low <= WeightedAverage(values, iterations) <= high
  {
    var n := |values|;
    WeightedSumWithin(values, iterations, n, low, high);
    assert iterations[..n] == iterations;
    AverageWithin(WeightedSum(values, iterations, n), Total(iterations), low, high);
  }

  /** Every value as often as there were iterations. */
  function Repeated(values: seq<real>, iterations: seq<nat>, n: nat): seq<real>
    requires n <= |values| && n <= |iterations|
  {
    if n == 0 then [] else Repeated(values, iterations, n - 1) + seq(iterations[n - 1], _ => values[n - 1])
  }

  function PlainSum(numbers: seq<real>): real {
    if numbers == [] then 0.0 else PlainSum(numbers[..|numbers| - 1]) + numbers[|numbers| - 1]
  }

  lemma {:induction false} PlainSumOfBoth(a: seq<real>, b: seq<real>)
    ensures PlainSum(a + b) == PlainSum(a) + PlainSum(b)
    decreases |b|
  {
    if b == [] {
      assert a + b == a;
    } else {
      assert (a + b)[..|a + b| - 1] == a + b[..|b| - 1];
      PlainSumOfBoth(a, b[..|b| - 1]);
    }
  }

  lemma {:induction false} PlainSumOfCopies(x: real, n: nat)
    ensures PlainSum(seq(n, _ => x)) == Times(x, n)
  {
    if n > 0 {
      assert seq(n, _ => x)[..n - 1] == seq(n - 1, _ => x);
      PlainSumOfCopies(x, n - 1);
    }
  }

  lemma {:induction false} SumOfRepeated(values: seq<real>, iterations: seq<nat>, n: nat)
    requires n <= |values| && n <= |iterations|
    ensures PlainSum(Repeated(values, iterations, n)) == WeightedSum(values, iterations, n)
    ensures |Repeated(values, iterations, n)| == Total(iterations[..n])
  {
    hide Times;
    if n == 0 {
      assert iterations[..0] == [];
    } else {
      SumOfRepeated(values, iterations, n - 1);
      TotalNext(iterations, n);
      PlainSumOfBoth(Repeated(values, iterations, n - 1), seq(iterations[n - 1], _ => values[n - 1]));
      PlainSumOfCopies(values[n - 1], iterations[n - 1]);
    }
  }

  /** With a value for every run, the weighted average is the plain one of all iterations. */
  lemma {:induction false} WeightedIsPlain(values: seq<real>, iterations: seq<nat>)
    requires |values| == |iterations| && Total(iterations) > 0
    ensures var all := Repeated(values, iterations, |values|);
            all != [] && WeightedAverage(values, iterations) == PlainSum(all) / |all| as real
  {
    SumOfRepeated(values, iterations, |values|);
    assert iterations[..|values|] == iterations;
  }

  lemma {:induction false} TotalOfFewer(iterations: seq<nat>, n: nat)
    requires n <= |iterations| && forall i :: 0 <= i < |iterations| ==> iterations[i] > 0
    ensures Total(iterations[..n]) <= Total(iterations)
            && (Total(iterations[..n]) == Total(iterations) <==> n == |iterations|)
    decreases |iterations|
  {
    if n == |iterations| {
      assert iterations[..n] == iterations;
    } else {
      TotalOfFewer(iterations[..|iterations| - 1], n);
      assert iterations[..|iterations| - 1][..n] == iterations[..n];
    }
  }

  /** A run that lacks the operation still has iterations for it: equal values then average to less than themselves. */
  lemma {:induction false} EqualValuesExactlyWhen(values: seq<real>, iterations: seq<nat>, x: real)
    requires iterations != [] && (forall i :: 0 <= i < |iterations| ==> iterations[i] > 0) && Total(iterations) > 0
    requires x > 0.0 && forall i :: 0 <= i < |values| ==> values[i] == x
    ensures WeightedAverage(values, iterations) == x <==> |values| >= |iterations|
    ensures WeightedAverage(values, iterations) <= x
  {
    var n := if |values| < |iterations| then |values| else |iterations|;
    WeightedSumWithin(values, iterations, n, x, x);
    TotalOfFewer(iterations, n);
    var part, all := Total(iterations[..n]) as real, Total(iterations) as real;
    assert WeightedSum(values, iterations, n) == part * x;
    QuotientOf(part, all, x);
  }

  function Without(iterations: seq<nat>, k: nat): seq<nat>
    requires k < |iterations|
  {
    iterations[..k] + iterations[k + 1..]
  }

  /** What the pairs with the iterations of the next run make up, from one value to another. */
  function Shift(values: seq<real>, iterations: seq<nat>, from: nat, n: nat): real
    requires from <= n <= |values| && n < |iterations|
    decreases n
  {
    if n == from then 0.0
    else Shift(values, iterations, from, n - 1) + values[n - 1] * (iterations[n - 1] as real - iterations[n] as real)
  }

  /** A run without the operation also shifts the pairs: each later value is weighted with the iterations of the
      run before its own. By so much is the sum off. */
  lemma {:induction false} LaterValuesAreShifted(values: seq<real>, iterations: seq<nat>, k: nat, n: nat)
    requires k < |iterations| && |values| == |iterations| - 1 && k <= n <= |values|
    ensures WeightedSum(values, iterations, n)
            == WeightedSum(values, Without(iterations, k), n) + Shift(values, iterations, k, n)
    decreases n
  {
    if n == k {
      SameWeights(values, iterations, Without(iterations, k), n);
    } else {
      LaterValuesAreShifted(values, iterations, k, n - 1);
      assert Without(iterations, k)[n - 1] == iterations[n];
    }
  }

  lemma {:induction false} SameWeights(values: seq<real>, a: seq<nat>, b: seq<nat>, n: nat)
    requires n <= |values| && n <= |a| && n <= |b| && a[..n] == b[..n]
    ensures WeightedSum(values, a, n) == WeightedSum(values, b, n)
  {
    if n > 0 {
      assert a[n - 1] == a[..n][n - 1] == b[..n][n - 1] == b[n - 1];
      assert a[..n - 1] == a[..n][..n - 1] && b[..n - 1] == b[..n][..n - 1];
      SameWeights(values, a, b, n - 1);
    }
  }

  lemma {:induction false} QuotientOf(part: real, all: real, x: real)
    requires 0.0 <= part <= all && all > 0.0 && x > 0.0
    ensures part * x / all <= x && (part * x / all == x <==> part == all)
  {
    var q := part * x / all;
    assert q * all == part * x;
    if part < all {
      ScaleLess(part, all, x);
    }
    if q > x {
      ScaleLess(x, q, all);
      assert false;
    }
  }

  // ----- the metrics of a task

  /** A metric of a run: one number, or statistics and their unit. */
  datatype Metric = Scalar(x: real) | Stats(fields: map<string, real>, unit: Option<string>)

  predicate Scalars(values: seq<Metric>) {
    forall i :: 0 <= i < |values| ==> values[i].Scalar?
  }

  predicate AllStats(values: seq<Metric>) {
    forall i :: 0 <= i < |values| ==> values[i].Stats?
  }

  function Numbers(values: seq<Metric>): seq<real>
    requires Scalars(values)
  {
    seq(|values|, i requires 0 <= i < |values| => values[i].x)
  }

  /** A field of all runs, 0 where it is missing. */
  function FieldsOf(values: seq<Metric>, field: string): (numbers: seq<real>)
    requires AllStats(values)
    ensures |numbers| == |values|
  {
    seq(|values|, i requires 0 <= i < |values| => if field in values[i].fields then values[i].fields[field] else 0.0)
  }

  function NewName(field: string): string {
    if field == "min" then "overall_min" else if field == "max" then "overall_max" else field
  }

  function Least(numbers: seq<real>): real
    requires numbers != []
  {
    if |numbers| == 1 then numbers[0]
    else var m := Least(numbers[..|numbers| - 1]); if numbers[|numbers| - 1] < m then numbers[|numbers| - 1] else m
  }

  function Greatest(numbers: seq<real>): real
    requires numbers != []
  {
    if |numbers| == 1 then numbers[0]
    else var m := Greatest(numbers[..|numbers| - 1]); if numbers[|numbers| - 1] > m then numbers[|numbers| - 1] else m
  }

  function Combined(field: string, numbers: seq<real>, iterations: seq<nat>): real
    requires numbers != [] && Total(iterations) > 0
  {
    if field == "min" then Least(numbers)
    else if field == "max" then Greatest(numbers)
    else WeightedAverage(numbers, iterations)
  }

  lemma {:induction false} LeastAndGreatest(numbers: seq<real>)
    requires numbers != []
    ensures Least(numbers) in numbers && forall i :: 0 <= i < |numbers| ==> Least(numbers) <= numbers[i]
    ensures Greatest(numbers) in numbers && forall i :: 0 <= i < |numbers| ==> numbers[i] <= Greatest(numbers)
  {
    if |numbers| > 1 {
      LeastAndGreatest(numbers[..|numbers| - 1]);
    }
  }

  /** Numbers for every run combine to one between the least and the greatest of them. */
  lemma {:induction false} CombinedWithin(field: string, numbers: seq<real>, iterations: seq<nat>)
    requires numbers != [] && |numbers| == |iterations| && Total(iterations) > 0
    ensures Least(numbers) <= Combined(field, numbers, iterations) <= Greatest(numbers)
  {
    LeastAndGreatest(numbers);
    WeightedAverageWithin(numbers, iterations, Least(numbers), Greatest(numbers));
  }

  predicate HaveField(values: seq<Metric>, field: string)
    requires AllStats(values)
  {
    forall i :: 0 <= i < |values| ==> field in values[i].fields
  }

  /** What the runs that have the field report for it. */
  ghost predicate ReportedWithin(values: seq<Metric>, field: string, low: real, high: real)
    requires AllStats(values)
  {
    forall i :: 0 <= i < |values| && field in values[i].fields ==> low <= values[i].fields[field] <= high
  }

  /** A statistic that all runs report lies between the least and the greatest of what they report. */
  lemma {:induction false} SharedFieldWithin(values: seq<Metric>, field: string, iterations: seq<nat>,
                                             low: real, high: real)
    requires values != [] && AllStats(values) && |values| == |iterations| && Total(iterations) > 0
    requires HaveField(values, field) && ReportedWithin(values, field, low, high)
    ensures low <= Combined(field, FieldsOf(values, field), iterations) <= high
  {
    var numbers := FieldsOf(values, field);
    assert forall i :: 0 <= i < |numbers| ==> numbers[i] == values[i].fields[field];
    LeastAndGreatest(numbers);
    CombinedWithin(field, numbers, iterations);
  }

  /** The iterations of the runs that have the field, 0 for the others. */
  function IterationsWith(values: seq<Metric>, field: string, iterations: seq<nat>): (with: seq<nat>)
    requires AllStats(values) && |values| == |iterations|
    ensures |with| == |values|
  {
    seq(|values|, i requires 0 <= i < |values| => if field in values[i].fields then iterations[i] else 0)
  }

  /** The average over the runs that report a value. */
  function ReportedAverage(values: seq<Metric>, field: string, iterations: seq<nat>): real
    requires AllStats(values) && |values| == |iterations| && Total(IterationsWith(values, field, iterations)) > 0
  {
    WeightedAverage(FieldsOf(values, field), IterationsWith(values, field, iterations))
  }

  lemma {:induction false} ReportedAverageWithin(values: seq<Metric>, field: string, iterations: seq<nat>,
                                                 low: real, high: real)
    requires AllStats(values) && |values| == |iterations| && ReportedWithin(values, field, low, high)
    requires Total(IterationsWith(values, field, iterations)) > 0
    ensures low <= ReportedAverage(values, field, iterations) <= high
  {
    var numbers, with, n := FieldsOf(values, field), IterationsWith(values, field, iterations), |values|;
    WeightedSumWithin(numbers, with, n, low, high);
    assert with[..n] == with;
    AverageWithin(WeightedSum(numbers, with, n), Total(with), low, high);
  }

  /** Runs without the field add nothing. */
  lemma {:induction false} SumOfReported(values: seq<Metric>, field: string, iterations: seq<nat>, n: nat)
    requires AllStats(values) && |values| == |iterations| && n <= |values|
    ensures WeightedSum(FieldsOf(values, field), iterations, n)
            == WeightedSum(FieldsOf(values, field), IterationsWith(values, field, iterations), n)
  {
    if n > 0 {
      SumOfReported(values, field, iterations, n - 1);
    }
  }

  lemma {:induction false} TotalWith(values: seq<Metric>, field: string, iterations: seq<nat>, n: nat)
    requires AllStats(values) && |values| == |iterations| && n <= |values|
    requires forall i :: 0 <= i < |iterations| ==> iterations[i] > 0
    ensures var part := Total(IterationsWith(values, field, iterations)[..n]);
            part <= Total(iterations[..n]) && (part == Total(iterations[..n]) <==> HaveField(values[..n], field))
    ensures forall i :: 0 <= i < n && field in values[i].fields ==>
              Total(IterationsWith(values, field, iterations)[..n]) > 0
  {
    if n > 0 {
      TotalWith(values, field, iterations, n - 1);
      TotalNext(iterations, n);
      TotalNext(IterationsWith(values, field, iterations), n);
      hide Total;
      assert values[..n] == values[..n - 1] + [values[n - 1]];
    }
  }

  /** A run that lacks a statistic counts as if it had reported 0: the average is that of the runs that have it, times
      their part of the iterations. So it is theirs exactly if all runs have it, or theirs is 0. */
  lemma {:induction false} MissingFieldExactlyWhen(values: seq<Metric>, field: string, iterations: seq<nat>, k: nat)
    requires AllStats(values) && |values| == |iterations| && k < |values| && field in values[k].fields
    requires Total(iterations) > 0 && forall i :: 0 <= i < |iterations| ==> iterations[i] > 0
    requires field != "min" && field != "max"
    ensures var part := Total(IterationsWith(values, field, iterations));
            && 0 < part <= Total(iterations)
            && var combined := Combined(field, FieldsOf(values, field), iterations);
               var reported := ReportedAverage(values, field, iterations);
               && combined * Total(iterations) as real == reported * part as real
               && (combined == reported <==> HaveField(values, field) || reported == 0.0)
  {
    var n, with := |values|, IterationsWith(values, field, iterations);
    SumOfReported(values, field, iterations, n);
    TotalWith(values, field, iterations, n);
    assert with[..n] == with && iterations[..n] == iterations && values[..n] == values;
    var sum, part, all := WeightedSum(FieldsOf(values, field), with, n), Total(with) as real, Total(iterations) as real;
    hide Total, WeightedSum;
    assert sum / part * part == sum && sum / all * all == sum;
    SameQuotient(sum, part, all);
  }

  lemma {:induction false} SameQuotient(sum: real, a: real, b: real)
    requires a > 0.0 && b > 0.0
    ensures sum / a == sum / b <==> a == b || sum / a == 0.0
  {
    var q := sum / a;
    assert q * a == sum;
    if q == sum / b {
      assert q * (a - b) == 0.0;
    }
    if q == 0.0 {
      assert sum == 0.0;
    }
  }

  /** Values that agree wherever they are reported are kept exactly if every run reports one; otherwise the aggregate is
      below all of them. */
  lemma {:induction false} SameValueExactlyWhen(values: seq<Metric>, field: string, iterations: seq<nat>, k: nat,
                                                x: real)
    requires AllStats(values) && |values| == |iterations| && k < |values| && field in values[k].fields
    requires Total(iterations) > 0 && forall i :: 0 <= i < |iterations| ==> iterations[i] > 0
    requires field != "min" && field != "max" && x > 0.0 && ReportedWithin(values, field, x, x)
    ensures var combined := Combined(field, FieldsOf(values, field), iterations);
            combined <= x && (combined == x <==> HaveField(values, field))
  {
    MissingFieldExactlyWhen(values, field, iterations, k);
    ReportedAverageWithin(values, field, iterations, x, x);
    hide Combined, ReportedAverage, Total;
    var combined := Combined(field, FieldsOf(values, field), iterations);
    AtMost(combined, x, Total(IterationsWith(values, field, iterations)) as real, Total(iterations) as real);
  }

  lemma {:induction false} AtMost(y: real, x: real, part: real, all: real)
    requires 0.0 < part <= all && x > 0.0 && y * all == x * part
    ensures y <= x
  {
    if y > x {
      ScaleLess(x, y, all);
      if part < all {
        ScaleLess(part, all, x);
      }
    }
  }

  /** A run that lacks the minimum brings the overall one down to 0; the maximum does not change. */
  lemma {:induction false} MissingExtremes(values: seq<Metric>, iterations: seq<nat>, low: real, high: real, k: nat)
    requires AllStats(values) && |values| == |iterations| && Total(iterations) > 0 && k < |values| && low > 0.0
    ensures "min" in values[k].fields && ReportedWithin(values, "min", low, high) ==>
              var least := Combined("min", FieldsOf(values, "min"), iterations);
              if HaveField(values, "min") then low <= least <= high else least == 0.0
    ensures "max" in values[k].fields && ReportedWithin(values, "max", low, high) ==>
              low <= Combined("max", FieldsOf(values, "max"), iterations) <= high
  {
    var mins, maxs := FieldsOf(values, "min"), FieldsOf(values, "max");
    LeastAndGreatest(mins);
    LeastAndGreatest(maxs);
    if !HaveField(values, "min") {
      var i :| 0 <= i < |values| && "min" !in values[i].fields;
      assert mins[i] == 0.0;
    }
    assert "max" in values[k].fields ==> maxs[k] == values[k].fields["max"];
  }

  /** The fields are visited in any order. Where two have the same new name, one of them is taken. */
  method CombineStats(values: seq<Metric>, iterations: seq<nat>) returns (result: Metric)
    requires values != [] && AllStats(values) && Total(iterations) > 0
    ensures result.Stats? && result.unit == values[0].unit
    ensures CombinedFields(result.fields, values, iterations, values[0].fields.Keys)
  {
    hide Combined, NewName;
    var fields: map<string, real> := map[];
    var rest := values[0].fields.Keys;
    ghost var done: set<string> := {};
    while rest != {}
      invariant rest <= values[0].fields.Keys && done == values[0].fields.Keys - rest
      invariant CombinedFields(fields, values, iterations, done)
    {
      var field :| field in rest;
      rest := rest - {field};
      done := done + {field};
      fields := fields[NewName(field) := Combined(field, FieldsOf(values, field), iterations)];
    }
    result := Stats(fields, values[0].unit);
  }

  /** The new names of some fields, each with the combination of a field that has it. */
  ghost predicate CombinedFields(fields: map<string, real>, values: seq<Metric>, iterations: seq<nat>, of: set<string>)
    requires values != [] && AllStats(values) && Total(iterations) > 0
  {
    && (forall field :: field in of ==> NewName(field) in fields)
    && (forall name :: name in fields ==>
          exists field :: field in of && NewName(field) == name
                          && fields[name] == Combined(field, FieldsOf(values, field), iterations))
  }

  /** Only the minimum and the maximum have new names, so where no run has an overall one, every field is combined. */
  lemma {:induction false} EveryFieldIsCombined(fields: map<string, real>, values: seq<Metric>, iterations: seq<nat>,
                                                of: set<string>, field: string)
    requires values != [] && AllStats(values) && Total(iterations) > 0 && CombinedFields(fields, values, iterations, of)
    requires field in of && "overall_min" !in of && "overall_max" !in of
    ensures NewName(field) in fields
    ensures fields[NewName(field)] == Combined(field, FieldsOf(values, field), iterations)
  {
    hide Combined;
    var other :| other in of && NewName(other) == NewName(field)
                 && fields[NewName(field)] == Combined(other, FieldsOf(values, other), iterations);
    assert other == field;
  }

  /** The overall minimum is at most what any run reports, the overall maximum at least. */
  lemma {:induction false} ExtremesAreBounds(fields: map<string, real>, values: seq<Metric>, iterations: seq<nat>,
                                             i: nat)
    requires values != [] && AllStats(values) && Total(iterations) > 0 && i < |values|
    requires CombinedFields(fields, values, iterations, values[0].fields.Keys)
    requires "overall_min" !in values[0].fields && "overall_max" !in values[0].fields
    ensures "min" in values[0].fields && "min" in values[i].fields ==>
              "overall_min" in fields && fields["overall_min"] <= values[i].fields["min"]
    ensures "max" in values[0].fields && "max" in values[i].fields ==>
              "overall_max" in fields && fields["overall_max"] >= values[i].fields["max"]
  {
    var mins, maxs := FieldsOf(values, "min"), FieldsOf(values, "max");
    LeastAndGreatest(mins);
    LeastAndGreatest(maxs);
    assert "min" in values[i].fields ==> mins[i] == values[i].fields["min"];
    assert "max" in values[i].fields ==> maxs[i] == values[i].fields["max"];
    if "min" in values[0].fields {
      EveryFieldIsCombined(fields, values, iterations, values[0].fields.Keys, "min");
    }
    if "max" in values[0].fields {
      EveryFieldIsCombined(fields, values, iterations, values[0].fields.Keys, "max");
    }
  }

  /** Every other statistic keeps its name. */
  lemma {:induction false} OthersKeepTheirName(fields: map<string, real>, values: seq<Metric>, iterations: seq<nat>,
                                               field: string)
    requires values != [] && AllStats(values) && |values| == |iterations| && Total(iterations) > 0
    requires CombinedFields(fields, values, iterations, values[0].fields.Keys)
    requires "overall_min" !in values[0].fields && "overall_max" !in values[0].fields
    requires field in values[0].fields && field != "min" && field != "max" && HaveField(values, field)
    ensures field in fields
    ensures var all := Repeated(seq(|values|, k requires 0 <= k < |values| && HaveField(values, field) =>
                                      values[k].fields[field]), iterations, |values|);
            all != [] && fields[field] == PlainSum(all) / |all| as real
  {
    EveryFieldIsCombined(fields, values, iterations, values[0].fields.Keys, field);
    var numbers := FieldsOf(values, field);
    assert numbers == seq(|values|, k requires 0 <= k < |values| && HaveField(values, field) =>
                            values[k].fields[field]);
    WeightedIsPlain(numbers, iterations);
    hide Repeated, PlainSum;
  }

  /** As many values as there are iterations to pair them with. */
  function Paired(values: seq<Metric>, iterations: seq<nat>): seq<Metric> {
    if |values| > |iterations| then values[..|iterations|] else values
  }

  /** Metrics that are numbers in one run and statistics in another are an error, if the program gets to them. */
  method CombineMetric(values: seq<Metric>, iterations: seq<nat>) returns (result: Result<Metric, string>)
    requires values != [] && Total(iterations) > 0
    ensures result.Err? <==> if values[0].Stats? then !AllStats(values) && values[0].fields != map[]
                             else !Scalars(Paired(values, iterations))
    ensures result.Ok? && values[0].Scalar? ==>
              result.value == Scalar(WeightedAverage(Numbers(Paired(values, iterations)), iterations))
    ensures result.Ok? && values[0].Stats? ==>
              && result.value.Stats? && result.value.unit == values[0].unit
              && if AllStats(values) then CombinedFields(result.value.fields, values, iterations, values[0].fields.Keys)
                 else result.value.fields == map[]
  {
    if values[0].Stats? {
      if AllStats(values) {
        var combined := CombineStats(values, iterations);
        return Ok(combined);
      }
      return if values[0].fields == map[] then Ok(Stats(map[], values[0].unit)) else Err("AttributeError");
    }
    var paired := Paired(values, iterations);
    return if Scalars(paired) then Ok(Scalar(WeightedAverage(Numbers(paired), iterations))) else Err("TypeError");
  }
}
