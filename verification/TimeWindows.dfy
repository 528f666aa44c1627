/** Time windows for chunks of documents: synthetic_data_generator/timeseries_partitioner.py. */
module TimeWindows {

  /** A window between two times, both in the smallest unit; it holds both ends. */
  datatype Window = Window(start: int, end: int)

  // ----- timestamps

  /** The timestamps of a window: from its start in steps, as long as they do not exceed its end. */
  function Stamps(start: int, end: int, step: int): (stamps: seq<int>)
    requires step > 0
    decreases end - start
  {
    if start > end then [] else [start] + Stamps(start + step, end, step)
  }

  /** They are the times from the start to the end that are a number of steps away from the start, in order. */
  lemma {:induction false} StampsAreTheGrid(start: int, end: int, step: int)
    requires step > 0
    ensures forall k :: 0 <= k < |Stamps(start, end, step)| ==> Stamps(start, end, step)[k] == start + k * step
    ensures forall k: nat {:trigger k * step} :: start + k * step <= end <==> k < |Stamps(start, end, step)|
    decreases end - start
  {
    if start <= end {
      var stamps, rest := Stamps(start, end, step), Stamps(start + step, end, step);
      StampsAreTheGrid(start + step, end, step);
      forall k | 0 <= k < |stamps| ensures stamps[k] == start + k * step {
        if k > 0 {
          assert stamps[k] == rest[k - 1] && k * step == (k - 1) * step + step;
        }
      }
      forall k: nat ensures start + k * step <= end <==> k < |stamps| {
        if k > 0 {
          var j: nat := k - 1;
          assert k * step == j * step + step;
          assert start + step + j * step <= end <==> j < |rest|;
        }
      }
    } else {
      forall k: nat ensures start + k * step > end {
        assert k * step >= 0;
      }
    }
  }

  /** The arithmetic count of timestamps. */
  function CountTimestamps(start: int, end: int, step: int): int
    requires step > 0 && start <= end
  {
    (end - start) / step + 1
  }

  lemma {:induction false} QuotientStep(n: int, step: int)
    requires step > 0 && n >= step
    ensures n / step == (n - step) / step + 1
  {
    var q, r := (n - step) / step, (n - step) % step;
    assert n == (q + 1) * step + r;
    var d := n / step - (q + 1);
    assert d * step == r - n % step;
    if d != 0 {
      NotSmall(d, step);
      assert false;
    }
  }

  lemma {:induction false} NotSmall(d: int, step: int)
    requires d != 0 && step > 0
    ensures d * step >= step || d * step <= -step
  {
    if d > 0 {
      assert (d - 1) * step >= 0;
    } else {
      assert (-d - 1) * step >= 0;
    }
  }

  lemma {:induction false} SmallQuotient(n: int, step: int)
    requires 0 <= n < step
    ensures n / step == 0
  {
  }

  /** The arithmetic count is the number of timestamps. */
  lemma {:induction false} CountIsNumberOfStamps(start: int, end: int, step: int)
    requires step > 0 && start <= end
    ensures |Stamps(start, end, step)| == CountTimestamps(start, end, step)
    decreases end - start
  {
    if start + step <= end {
      CountIsNumberOfStamps(start + step, end, step);
      QuotientStep(end - start, step);
    } else {
      SmallQuotient(end - start, step);
      assert Stamps(start + step, end, step) == [];
    }
  }

  /** n steps further on, n timestamps fewer. */
  lemma {:induction false} StampsAfter(start: int, end: int, step: int, n: nat)
    requires step > 0 && start + n * step <= end
    ensures |Stamps(start, end, step)| == n + |Stamps(start + n * step, end, step)|
    ensures Stamps(start, end, step) == Stamps(start, start + n * step, step) + Stamps(start + n * step, end, step)[1..]
    ensures |Stamps(start, start + n * step, step)| == n + 1
    decreases n
  {
    if n == 0 {
      assert Stamps(start, start, step) == [start] by {
        assert Stamps(start + step, start, step) == [];
      }
    } else {
      assert n * step == step + (n - 1) * step;
      assert (n - 1) * step >= 0;
      StampsAfter(start + step, end, step, n - 1);
    }
  }

  // ----- windows

  function Min(a: int, b: int): int {
    if a < b then a else b
  }

  /** The windows from a time to the end, each docs - 1 steps long but for the last. */
  function Windows(current: int, end: int, length: int): seq<Window>
    requires length > 0
    decreases end - current
  {
    if current >= end then []
    else [Window(current, Min(current + length, end))] + Windows(current + length, end, length)
  }

  method GenerateWindows(start: int, end: int, step: int, docsPerChunk: int) returns (windows: seq<Window>)
    requires step > 0 && docsPerChunk >= 2
    ensures (docsPerChunk - 1) * step > 0 && windows == Windows(start, end, (docsPerChunk - 1) * step)
  {
    var current := start;
    var length := (docsPerChunk - 1) * step;
    LengthIsPositive(step, docsPerChunk);
    windows := [];
    while current < end
      invariant windows + Windows(current, end, length) == Windows(start, end, length)
      decreases end - current
    {
      var windowEnd := if current + length < end then current + length else end;
      windows := windows + [Window(current, windowEnd)];
      current := current + length;
    }
  }

  /** The windows cover all the time, each beginning where the one before ends. */
  lemma {:induction false} WindowsCover(start: int, end: int, length: int)
    requires length > 0 && start < end
    ensures var w := Windows(start, end, length);
            && w != [] && w[0].start == start && w[|w| - 1].end == end
            && (forall i :: 0 <= i < |w| - 1 ==> w[i].end == w[i + 1].start && w[i].end == w[i].start + length)
            && (forall i :: 0 <= i < |w| ==> w[i].start < w[i].end)
    decreases end - start
  {
    var rest := Windows(start + length, end, length);
    if start + length < end {
      WindowsCover(start + length, end, length);
      var w := Windows(start, end, length);
      forall i | 0 <= i < |w| - 1 ensures w[i].end == w[i + 1].start && w[i].end == w[i].start + length {
        if i > 0 {
          assert w[i] == rest[i - 1] && w[i + 1] == rest[i];
        }
      }
    } else {
      assert rest == [];
    }
  }

  function Sizes(windows: seq<Window>, step: int): int
    requires step > 0
  {
    if windows == [] then 0 else |Stamps(windows[0].start, windows[0].end, step)| + Sizes(windows[1..], step)
  }

  /** The timestamps of all windows in order, those that two windows share taken once. */
  function Merged(windows: seq<Window>, step: int): seq<int>
    requires step > 0
  {
    if windows == [] then []
    else
      var stamps, rest := Stamps(windows[0].start, windows[0].end, step), Merged(windows[1..], step);
      if rest == [] then stamps else stamps + rest[1..]
  }

  /** All windows but the last hold exactly as many timestamps as a chunk has documents; together they hold exactly the
      timestamps that are counted, one of them twice for each two neighbours. */
  lemma {:induction false} WindowsPartitionTheGrid(start: int, end: int, step: int, docsPerChunk: int)
    requires step > 0 && docsPerChunk >= 2 && start < end && (docsPerChunk - 1) * step > 0
    ensures var w := Windows(start, end, (docsPerChunk - 1) * step);
            && (forall i :: 0 <= i < |w| - 1 ==> |Stamps(w[i].start, w[i].end, step)| == docsPerChunk)
            && Merged(w, step) == Stamps(start, end, step)
            && Sizes(w, step) == CountTimestamps(start, end, step) + |w| - 1
    decreases end - start
  {
    var length := (docsPerChunk - 1) * step;
    var w, rest := Windows(start, end, length), Windows(start + length, end, length);
    assert w[1..] == rest;
    CountIsNumberOfStamps(start, end, step);
    if start + length < end {
      WindowsPartitionTheGrid(start + length, end, step, docsPerChunk);
      StampsAfter(start, end, step, docsPerChunk - 1);
      CountIsNumberOfStamps(start + length, end, step);
      assert Stamps(start + length, end, step) != [];
      forall i | 0 <= i < |w| - 1 ensures |Stamps(w[i].start, w[i].end, step)| == docsPerChunk {
        if i > 0 {
          assert w[i] == rest[i - 1];
        }
      }
    } else {
      assert rest == [] && Merged(rest, step) == [];
    }
  }

  // ----- termination

  /** Where the generator is after n windows. */
  function CurrentAfter(start: int, length: int, n: nat): int {
    if n == 0 then start else CurrentAfter(start, length, n - 1) + length
  }

  lemma {:induction false} CurrentIsLinear(start: int, length: int, n: nat)
    ensures CurrentAfter(start, length, n) == start + n * length
  {
    if n > 0 {
      CurrentIsLinear(start, length, n - 1);
      assert n * length == (n - 1) * length + length;
    }
  }

  /** The generator comes to an end exactly when a chunk has at least two documents; with one it repeats an empty
      span. */
  lemma {:induction false} EndsExactlyWhen(start: int, end: int, step: int, docsPerChunk: int)
    requires step > 0 && start < end
    ensures var length := (docsPerChunk - 1) * step;
            (exists n: nat :: CurrentAfter(start, length, n) >= end) <==> docsPerChunk >= 2
  {
    var length := (docsPerChunk - 1) * step;
    if docsPerChunk >= 2 {
      LengthIsPositive(step, docsPerChunk);
      Arrives(start, end, length);
    } else {
      LengthIsNotPositive(step, docsPerChunk);
      forall n: nat ensures CurrentAfter(start, length, n) < end {
        StaysBehind(start, length, n);
      }
    }
  }

  lemma {:induction false} LengthIsPositive(step: int, docsPerChunk: int)
    requires step > 0 && docsPerChunk >= 2
    ensures (docsPerChunk - 1) * step > 0
  {
    assert (docsPerChunk - 1) * step == (docsPerChunk - 2) * step + step;
    assert (docsPerChunk - 2) * step >= 0;
  }

  lemma {:induction false} LengthIsNotPositive(step: int, docsPerChunk: int)
    requires step > 0 && docsPerChunk <= 1
    ensures (docsPerChunk - 1) * step <= 0
  {
  }

  lemma {:induction false} Arrives(start: int, end: int, length: int)
    requires length > 0 && start < end
    ensures CurrentAfter(start, length, end - start) >= end
  {
    CurrentIsLinear(start, length, end - start);
    assert (end - start) * (length - 1) >= 0;
    assert (end - start) * length == (end - start) * (length - 1) + (end - start);
  }

  lemma {:induction false} StaysBehind(start: int, length: int, n: nat)
    requires length <= 0
    ensures CurrentAfter(start, length, n) <= start
  {
    if n > 0 {
      StaysBehind(start, length, n - 1);
    }
  }

  /** Of a single moment there is one timestamp but no window. */
  lemma {:induction false} NoWindowForAMoment(time: int, step: int, length: int)
    requires step > 0 && length > 0
    ensures CountTimestamps(time, time, step) == 1 && Windows(time, time, length) == []
  {
    SmallQuotient(0, step);
  }
}
