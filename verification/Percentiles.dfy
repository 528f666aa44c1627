/** Percentiles of samples: metrics.py. Numbers are exact. */
module Percentiles {

  // ----- sorting

  ghost predicate Ascending(s: seq<real>) {
    forall i, j :: 0 <= i < j < |s| ==> s[i] <= s[j]
  }

  function Insert(x: real, s: seq<real>): seq<real> {
    if s == [] || x <= s[0] then [x] + s else [s[0]] + Insert(x, s[1..])
  }

  /** sorted(values) */
  function Sorted(values: seq<real>): seq<real> {
    if values == [] then [] else Insert(values[0], Sorted(values[1..]))
  }

  lemma {:induction false} InsertAscends(x: real, s: seq<real>)
    requires Ascending(s)
    ensures Ascending(Insert(x, s)) && |Insert(x, s)| == |s| + 1
    ensures Insert(x, s)[0] == if s != [] && s[0] < x then s[0] else x
  {
    if s != [] && x > s[0] {
      InsertAscends(x, s[1..]);
    }
  }

  lemma {:induction false} InsertKeeps(x: real, s: seq<real>)
    ensures multiset(Insert(x, s)) == multiset{x} + multiset(s)
  {
    if s != [] && x > s[0] {
      InsertKeeps(x, s[1..]);
      assert s == [s[0]] + s[1..];
    }
  }

  lemma {:induction false} SortedAscends(values: seq<real>)
    ensures Ascending(Sorted(values)) && multiset(Sorted(values)) == multiset(values) && |Sorted(values)| == |values|
  {
    if values != [] {
      SortedAscends(values[1..]);
      InsertAscends(values[0], Sorted(values[1..]));
      InsertKeeps(values[0], Sorted(values[1..]));
      assert values == [values[0]] + values[1..];
    }
  }

  /** There is one ascending order of any values. */
  lemma {:induction false} AscendingIsUnique(a: seq<real>, b: seq<real>)
    requires Ascending(a) && Ascending(b) && multiset(a) == multiset(b)
    ensures a == b
  {
    if a == [] {
      assert |multiset(b)| == 0;
    } else {
      assert |multiset(a)| == |multiset(b)|;
      FirstIsLeast(a, b);
      FirstIsLeast(b, a);
      assert a == [a[0]] + a[1..] && b == [b[0]] + b[1..];
      assert multiset(a[1..]) == multiset(a) - multiset{a[0]};
      assert multiset(b[1..]) == multiset(b) - multiset{b[0]};
      AscendingIsUnique(a[1..], b[1..]);
    }
  }

  lemma {:induction false} FirstIsLeast(a: seq<real>, b: seq<real>)
    requires Ascending(a) && a != [] && b != [] && multiset(a) == multiset(b)
    ensures a[0] <= b[0]
  {
    assert b[0] in multiset(b);
    assert b[0] in a;
  }

  /** The order of the samples does not matter. */
  lemma {:induction false} SortedForgetsOrder(a: seq<real>, b: seq<real>)
    requires multiset(a) == multiset(b)
    ensures Sorted(a) == Sorted(b)
  {
    SortedAscends(a);
    SortedAscends(b);
    AscendingIsUnique(Sorted(a), Sorted(b));
  }

  // ----- percentiles

  function Rank(n: nat, p: real): real
    requires n > 0
  {
    p / 100.0 * (n - 1) as real
  }

  lemma {:induction false} RankInRange(n: nat, p: real)
    requires n > 0 && 0.0 <= p <= 100.0
    ensures 0.0 <= Rank(n, p) <= (n - 1) as real
  {
    var f := p / 100.0;
    assert 0.0 <= f <= 1.0;
    Scale(f, 1.0, (n - 1) as real);
    Scale(0.0, f, (n - 1) as real);
  }

  lemma {:induction false} Scale(a: real, b: real, k: real)
    requires a <= b && k >= 0.0
    ensures a * k <= b * k
  {
  }

  /** Between two values in proportion to the fraction of the rank. */
  function ValueAt(s: seq<real>, rank: real): real
    requires 0.0 <= rank <= (|s| - 1) as real
  {
    var k := rank.Floor;
    if rank == k as real then s[k] else s[k] + (s[k + 1] - s[k]) * (rank - k as real)
  }

  function PercentileValue(s: seq<real>, p: real): real
    requires s != [] && 0.0 <= p <= 100.0
  {
    RankInRange(|s|, p);
    ValueAt(s, Rank(|s|, p))
  }

  /** The value lies between its two neighbours. */
  lemma {:induction false} ValueBetweenNeighbours(s: seq<real>, rank: real)
    requires Ascending(s) && 0.0 <= rank <= (|s| - 1) as real
    ensures s[rank.Floor] <= ValueAt(s, rank)
    ensures rank != rank.Floor as real ==> rank.Floor + 1 < |s| && ValueAt(s, rank) <= s[rank.Floor + 1]
    ensures rank == rank.Floor as real ==> ValueAt(s, rank) == s[rank.Floor]
  {
    var k := rank.Floor;
    if rank != k as real {
      Interpolated(s[k], s[k + 1], 0.0, rank - k as real);
      Interpolated(s[k], s[k + 1], rank - k as real, 1.0);
    }
  }

  lemma {:induction false} Interpolated(low: real, high: real, f: real, g: real)
    requires low <= high && f <= g
    ensures low + (high - low) * f <= low + (high - low) * g
  {
    Scale(f, g, high - low);
  }

  lemma {:induction false} ValueGrows(s: seq<real>, a: real, b: real)
    requires Ascending(s) && 0.0 <= a <= b <= (|s| - 1) as real
    ensures ValueAt(s, a) <= ValueAt(s, b)
  {
    ValueBetweenNeighbours(s, a);
    ValueBetweenNeighbours(s, b);
    var j, k := a.Floor, b.Floor;
    if j == k {
      if a != j as real {
        Interpolated(s[j], s[j + 1], a - j as real, b - j as real);
      }
    } else {
      assert j + 1 <= k;
    }
  }

  /** Percentiles do not decrease, the 0th is the least value, the 100th the greatest. */
  lemma {:induction false} PercentilesGrow(s: seq<real>, p: real, q: real)
    requires s != [] && Ascending(s) && 0.0 <= p <= q <= 100.0
    ensures PercentileValue(s, p) <= PercentileValue(s, q)
    ensures PercentileValue(s, 0.0) == s[0] && PercentileValue(s, 100.0) == s[|s| - 1]
  {
    RankInRange(|s|, p);
    RankInRange(|s|, q);
    Scale(p / 100.0, q / 100.0, (|s| - 1) as real);
    ValueGrows(s, Rank(|s|, p), Rank(|s|, q));
    assert Rank(|s|, 0.0) == 0.0 && Rank(|s|, 100.0) == (|s| - 1) as real;
  }

  /** The k-th of n values is the percentile 100 * k / (n - 1), and between two of them the value is linear: a part t of
      the way to the next percentile it has come the same part of the way to the next value. */
  lemma {:induction false} LinearBetweenSamples(s: seq<real>, k: nat, t: real, p: real)
    requires k + 1 < |s| && 0.0 <= t <= 1.0 && p * (|s| - 1) as real == 100.0 * (k as real + t)
    ensures 0.0 <= p <= 100.0 && PercentileValue(s, p) == (1.0 - t) * s[k] + t * s[k + 1]
  {
    assert k as real + t <= (k + 1) as real <= (|s| - 1) as real;
    NotBeyond(p, (|s| - 1) as real, k as real + t);
    RankInRange(|s|, p);
    RankOf(|s|, p, k as real + t);
    Interpolation(s, k, t);
    hide ValueAt, Rank;
  }

  lemma {:induction false} RankOf(n: nat, p: real, rank: real)
    requires n > 0 && p * (n - 1) as real == 100.0 * rank
    ensures Rank(n, p) == rank
  {
    assert p / 100.0 * (n - 1) as real == p * (n - 1) as real / 100.0;
  }

  lemma {:induction false} NotBeyond(p: real, n: real, rank: real)
    requires n > 0.0 && p * n == 100.0 * rank && 0.0 <= rank <= n
    ensures 0.0 <= p <= 100.0
  {
    assert p * n - 100.0 * n == (p - 100.0) * n;
  }

  lemma {:induction false} Interpolation(s: seq<real>, k: nat, t: real)
    requires k + 1 < |s| && 0.0 <= t <= 1.0
    ensures ValueAt(s, k as real + t) == (1.0 - t) * s[k] + t * s[k + 1]
  {
    var rank := k as real + t;
    if t == 1.0 {
      assert rank == (k + 1) as real;
      assert rank.Floor == k + 1;
    } else {
      assert rank.Floor == k;
      assert rank - k as real == t;
      assert (s[k + 1] - s[k]) * t == s[k + 1] * t - s[k] * t;
    }
  }

  // ----- statistics

  datatype Stats = Stats(count: nat, min: real, max: real)

  function StatsOf(values: seq<real>): Stats
    requires values != []
  {
    SortedAscends(values);
    Stats(|values|, Sorted(values)[0], Sorted(values)[|values| - 1])
  }

  /** A percentile of samples. */
  function Percentile(values: seq<real>, p: real): real
    requires values != [] && 0.0 <= p <= 100.0
  {
    SortedAscends(values);
    PercentileValue(Sorted(values), p)
  }

  /** For every list of samples the percentiles do not decrease, lie between the reported least and greatest sample, are
      these at 0 and 100, and do not depend on the order of the samples. */
  lemma {:induction false} PercentilesOfSamples(values: seq<real>, p: real, q: real, others: seq<real>)
    requires values != [] && 0.0 <= p <= q <= 100.0 && multiset(others) == multiset(values)
    ensures Percentile(values, p) <= Percentile(values, q)
    ensures StatsOf(values).min <= Percentile(values, p) <= StatsOf(values).max
    ensures Percentile(values, 0.0) == StatsOf(values).min && Percentile(values, 100.0) == StatsOf(values).max
    ensures others != [] && Percentile(others, p) == Percentile(values, p) && StatsOf(others) == StatsOf(values)
    ensures StatsOf(values).count == |values| && StatsOf(values).max in values
    ensures StatsOf(values).min in values && forall v :: v in values ==> StatsOf(values).min <= v <= StatsOf(values).max
  {
    hide Sorted, PercentileValue;
    assert |multiset(others)| == |multiset(values)|;
    SortedAscends(values);
    var s := Sorted(values);
    PercentilesGrow(s, p, q);
    PercentilesGrow(s, 0.0, p);
    PercentilesGrow(s, p, 100.0);
    SortedForgetsOrder(values, others);
    assert s[0] in multiset(values) && s[|s| - 1] in multiset(values);
    forall v | v in values ensures s[0] <= v <= s[|s| - 1] {
      assert v in multiset(s);
    }
  }

  method GetPercentiles(values: seq<real>, percentiles: seq<real>) returns (result: map<real, real>)
    requires forall p :: p in percentiles ==> 0.0 <= p <= 100.0
    ensures values == [] ==> result == map[]
    ensures values != [] ==> forall p :: p in result <==> p in percentiles
    ensures values != [] ==> forall p :: p in result ==> 0.0 <= p <= 100.0 && result[p] == Percentile(values, p)
  {
    result := map[];
    if |values| > 0 {
      var sorted := Sorted(values);
      SortedAscends(values);
      for i := 0 to |percentiles|
        invariant forall p :: p in result <==> p in percentiles[..i]
        invariant forall p :: p in result ==> 0.0 <= p <= 100.0 && result[p] == Percentile(values, p)
      {
        hide Sorted, PercentileValue;
        assert percentiles[i] in percentiles;
        result := result[percentiles[i] := PercentileValue(sorted, percentiles[i])];
      }
      assert percentiles[..|percentiles|] == percentiles;
    }
  }

  // ----- which percentiles to report

  /** The greatest power of ten that is not greater. */
  function EffectiveSize(n: nat): nat
    requires n > 0
  {
    if n < 10 then 1 else 10 * EffectiveSize(n / 10)
  }

  function Abs(x: real): real {
    if x < 0.0 then -x else x
  }

  /** Python's round: to the nearest integer, ties to the even one. */
  function Round(x: real): int {
    var k := x.Floor;
    var f := x - k as real;
    if f < 0.5 || (f == 0.5 && k % 2 == 0) then k else k + 1
  }

  const Delta := 0.000001

  predicate Suitable(n: nat, p: real)
    requires n > 0
  {
    var x := EffectiveSize(n) as real * (p / 100.0);
    Abs(x - Round(x) as real) < Delta || p == 25.0 || p == 75.0
  }

  lemma {:induction false} AppendAscends(s: seq<real>, of: seq<real>, i: nat)
    requires Ascending(s) && Ascending(of) && i < |of| && forall v :: v in s ==> v in of[..i]
    ensures Ascending(s + [of[i]])
  {
    forall v | v in s ensures v <= of[i] {
      var j :| 0 <= j < i && of[..i][j] == v;
    }
    var t := s + [of[i]];
    forall j, k | 0 <= j < k < |t| ensures t[j] <= t[k] {
      assert s[j] in s;
    }
  }

  method Present(wanted: seq<real>, percentiles: seq<real>) returns (present: seq<real>)
    requires Ascending(wanted)
    ensures Ascending(present) && forall p :: p in present <==> p in wanted && p in percentiles
  {
    present := [];
    for i := 0 to |wanted|
      invariant Ascending(present) && forall p :: p in present <==> p in wanted[..i] && p in percentiles
    {
      if wanted[i] in percentiles {
        AppendAscends(present, wanted, i);
        present := present + [wanted[i]];
      }
    }
    assert wanted[..|wanted|] == wanted;
  }

  /** What is reported of these percentiles for so many samples. */
  ghost predicate Reported(n: nat, percentiles: seq<real>, p: real)
    requires n > 0
  {
    p in percentiles &&
    if n == 1 then false
    else if n < 4 then p == 50.0 || p == 100.0
    else if n < 10 then p == 25.0 || p == 50.0 || p == 75.0 || p == 100.0
    else Suitable(n, p)
  }

  ghost predicate NothingReported(n: nat, percentiles: seq<real>)
    requires n > 0
  {
    forall p :: p in percentiles ==> !Reported(n, percentiles, p)
  }

  function PowerOfTen(k: nat): nat {
    if k == 0 then 1 else 10 * PowerOfTen(k - 1)
  }

  /** Of all powers of ten the effective size is the one just not above n. */
  lemma {:induction false} EffectiveSizeBounds(n: nat) returns (k: nat)
    requires n > 0
    ensures EffectiveSize(n) == PowerOfTen(k) <= n < PowerOfTen(k + 1)
  {
    if n >= 10 {
      k := EffectiveSizeBounds(n / 10);
      k := k + 1;
    } else {
      k := 0;
    }
  }

  /** A percentile is suitable if so large a part of the effective size is a whole number, but for rounding errors, or
      if it is a quartile. */
  lemma {:induction false} SuitableExactlyWhen(n: nat, p: real)
    requires n > 0
    ensures Suitable(n, p) <==>
              p == 25.0 || p == 75.0 || exists m: int :: NearlyPart(EffectiveSize(n), p, m)
  {
    var x := EffectiveSize(n) as real * (p / 100.0);
    NearRounded(x);
    hide Round, Abs, EffectiveSize;
    forall m: int ensures NearlyPart(EffectiveSize(n), p, m) <==> Near(x, m) {
    }
    if Suitable(n, p) && p != 25.0 && p != 75.0 {
      assert NearlyPart(EffectiveSize(n), p, Round(x));
    }
  }

  ghost predicate Near(x: real, m: int) {
    -0.000001 < x - m as real < 0.000001
  }

  ghost predicate NearlyPart(size: nat, p: real, m: int) {
    Near(size as real * (p / 100.0), m)
  }

  lemma {:induction false} NearRounded(x: real)
    ensures Abs(x - Round(x) as real) < Delta <==> Near(x, Round(x))
    ensures forall m: int :: Near(x, m) ==> Near(x, Round(x))
  {
    forall m: int | Near(x, m) ensures Near(x, Round(x)) {
      RoundIsNearest(x, m);
    }
    hide Round;
  }

  lemma {:induction false} RoundIsNearest(x: real, m: int)
    ensures Abs(x - Round(x) as real) <= Abs(x - m as real)
  {
    var k := x.Floor;
    if m > k {
      assert m as real >= (k + 1) as real;
    } else {
      assert m as real <= k as real;
    }
  }

  lemma {:induction false} WholeIsSuitable(n: nat, p: real, k: int)
    requires n > 0 && EffectiveSize(n) as real * (p / 100.0) == k as real
    ensures Suitable(n, p)
  {
    assert (k as real).Floor == k;
  }

  lemma {:induction false} BetweenIsNotSuitable(n: nat, p: real, k: int)
    requires n > 0 && p != 25.0 && p != 75.0
    requires k as real + Delta <= EffectiveSize(n) as real * (p / 100.0) <= (k + 1) as real - Delta
    ensures !Suitable(n, p)
  {
    assert (EffectiveSize(n) as real * (p / 100.0)).Floor == k;
  }

  lemma {:induction false} TenThousands(n: nat) returns (q: nat)
    requires n >= 10000
    ensures EffectiveSize(n) == 10000 * q
  {
    if n < 100000 {
      SmallSizes(n / 10);
      assert EffectiveSize(n) == 10 * EffectiveSize(n / 10);
      q := 1;
    } else {
      q := TenThousands(n / 10);
      q := 10 * q;
    }
  }

  lemma {:induction false} SmallSizes(n: nat)
    requires 10 <= n < 10000
    ensures EffectiveSize(n) == if n < 100 then 10 else if n < 1000 then 100 else 1000
  {
    assert EffectiveSize(n) == 10 * EffectiveSize(n / 10);
    if n >= 100 {
      assert EffectiveSize(n / 10) == 10 * EffectiveSize(n / 100);
      if n >= 1000 {
        assert EffectiveSize(n / 100) == 10 * EffectiveSize(n / 1000);
      }
    }
  }

  /** Of the default percentiles, each is shown only if there are enough samples for it to be distinct. */
  lemma {:induction false} EnoughSamples(n: nat)
    requires n >= 10
    ensures Suitable(n, 50.0) && Suitable(n, 90.0) && Suitable(n, 100.0)
    ensures Suitable(n, 99.0) <==> n >= 100
    ensures Suitable(n, 99.9) <==> n >= 1000
    ensures Suitable(n, 99.99) <==> n >= 10000
  {
    hide Suitable, EffectiveSize;
    if n >= 10000 {
      var q := TenThousands(n);
      ManySamples(n, q);
    } else {
      SmallSizes(n);
      FewSamples(n, EffectiveSize(n));
    }
  }

  lemma {:induction false} ManySamples(n: nat, q: nat)
    requires n >= 10000 && EffectiveSize(n) == 10000 * q
    ensures Suitable(n, 50.0) && Suitable(n, 90.0) && Suitable(n, 100.0) && Suitable(n, 99.0)
    ensures Suitable(n, 99.9) && Suitable(n, 99.99)
  {
    hide Suitable, EffectiveSize;
    WholeIsSuitable(n, 50.0, 5000 * q);
    WholeIsSuitable(n, 90.0, 9000 * q);
    WholeIsSuitable(n, 100.0, 10000 * q);
    WholeIsSuitable(n, 99.0, 9900 * q);
    WholeIsSuitable(n, 99.9, 9990 * q);
    WholeIsSuitable(n, 99.99, 9999 * q);
  }

  lemma {:induction false} FewSamples(n: nat, e: nat)
    requires n > 0 && EffectiveSize(n) == e && (e == 10 || e == 100 || e == 1000)
    ensures Suitable(n, 50.0) && Suitable(n, 90.0) && Suitable(n, 100.0)
    ensures Suitable(n, 99.0) <==> e >= 100
    ensures Suitable(n, 99.9) <==> e >= 1000
    ensures !Suitable(n, 99.99)
  {
    hide Suitable, EffectiveSize;
    WholeIsSuitable(n, 50.0, e / 2);
    WholeIsSuitable(n, 90.0, e - e / 10);
    WholeIsSuitable(n, 100.0, e);
    BetweenIsNotSuitable(n, 99.99, e - 1);
    if e >= 100 {
      WholeIsSuitable(n, 99.0, e - e / 100);
    } else {
      BetweenIsNotSuitable(n, 99.0, e - 1);
    }
    if e >= 1000 {
      WholeIsSuitable(n, 99.9, e - e / 1000);
    } else {
      BetweenIsNotSuitable(n, 99.9, e - 1);
    }
  }

  method FilterPercentiles(n: nat, percentiles: seq<real>) returns (filtered: seq<real>)
    requires n > 0
    ensures filtered != []
    ensures Ascending(percentiles) ==> Ascending(filtered)
    ensures forall p :: p in filtered <==> Shown(n, percentiles, p)
  {
    filtered := [];
    if n == 1 {
      filtered := [100.0];
    } else if n < 4 {
      filtered := Present([50.0, 100.0], percentiles);
    } else if n < 10 {
      filtered := Present([25.0, 50.0, 75.0, 100.0], percentiles);
    } else {
      for i := 0 to |percentiles|
        invariant forall p :: p in filtered <==> p in percentiles[..i] && Suitable(n, p)
        invariant Ascending(percentiles) ==> Ascending(filtered)
        invariant forall p :: p in filtered ==> p in percentiles[..i]
      {
        if Suitable(n, percentiles[i]) {
          if Ascending(percentiles) {
            AppendAscends(filtered, percentiles, i);
          }
          filtered := filtered + [percentiles[i]];
        }
      }
      assert percentiles[..|percentiles|] == percentiles;
    }
    ShownIs(n, percentiles, if n == 1 then [] else filtered);
    if |filtered| == 0 {
      filtered := [100.0];
    }
  }

  lemma {:induction false} ShownIs(n: nat, percentiles: seq<real>, filtered: seq<real>)
    requires n > 0 && forall p :: p in filtered <==> Reported(n, percentiles, p)
    ensures forall p :: p in (if filtered == [] then [100.0] else filtered) <==> Shown(n, percentiles, p)
  {
    hide Suitable;
    if filtered != [] {
      var p := filtered[0];
      assert p in filtered;
      assert Reported(n, percentiles, p) && p in percentiles;
      assert !NothingReported(n, percentiles);
    } else {
      forall p ensures !Reported(n, percentiles, p) {
        assert p !in filtered;
      }
      assert NothingReported(n, percentiles);
    }
  }

  /** The list is sorted before it is filtered, so the result ascends whatever order it was given in. */
  method PercentilesForSampleSize(n: nat, list: seq<real>) returns (percentiles: seq<real>)
    requires n > 0
    ensures percentiles != [] && Ascending(percentiles)
    ensures forall p :: p in percentiles <==> Shown(n, list, p)
  {
    SortedAscends(list);
    percentiles := FilterPercentiles(n, Sorted(list));
    forall p ensures p in list <==> p in Sorted(list) {
      assert p in multiset(Sorted(list)) <==> p in multiset(list);
    }
    hide Reported;
    assert forall p :: Reported(n, list, p) <==> Reported(n, Sorted(list), p) by {
      SameReported(n, list, Sorted(list));
    }
  }

  lemma {:induction false} SameReported(n: nat, a: seq<real>, b: seq<real>)
    requires n > 0 && forall p :: p in a <==> p in b
    ensures forall p :: Reported(n, a, p) <==> Reported(n, b, p)
  {
    hide Suitable;
  }

  /** What is reported, or just the 100th percentile if nothing else is. */
  ghost predicate Shown(n: nat, percentiles: seq<real>, p: real)
    requires n > 0
  {
    Reported(n, percentiles, p) || (p == 100.0 && NothingReported(n, percentiles))
  }

  /** The percentiles that are reported for a task: never empty if there are samples, and growing with the
      percentile. */
  method SingleLatency(values: seq<real>, list: seq<real>) returns (result: map<real, real>)
    requires forall p :: p in list ==> 0.0 <= p <= 100.0
    ensures values == [] ==> result == map[]
    ensures values != [] ==> result != map[] && forall p :: p in result <==> Shown(|values|, list, p)
    ensures forall p :: p in result ==> values != [] && 0.0 <= p <= 100.0 && result[p] == Percentile(values, p)
    ensures forall p, q :: p in result && q in result && p <= q ==> result[p] <= result[q]
  {
    result := map[];
    if |values| > 0 {
      var percentiles := PercentilesForSampleSize(|values|, list);
      assert forall p :: p in percentiles ==> p in list || p == 100.0;
      result := GetPercentiles(values, percentiles);
      assert percentiles[0] in percentiles;
      assert percentiles[0] in result;
      forall p, q | p in result && q in result && p <= q ensures result[p] <= result[q] {
        PercentilesOfSamples(values, p, q, values);
      }
    }
  }
}
