/**
  The sliding window behind both `WeightedMean` classes: a window of fixed
  length `n` that is filled with `n` copies of the first value added, then
  drops its oldest sample for every new one; its mean weighs the samples,
  from oldest to newest, with a fixed list of weights. Values are exact reals.
 */
module MeanWindow {
  import opened Common

  /** The weighted sum `Σ values[i] * weights[i]`. */
  function Dot(values: seq<real>, weights: seq<real>): real
    requires |values| == |weights|
  {
    if values == [] then 0.0 else values[0] * weights[0] + Dot(values[1..], weights[1..])
  }

  function SumReals(s: seq<real>): real {
    if s == [] then 0.0 else s[0] + SumReals(s[1..])
  }

  /** What the weighted mean accepts: no negative weight and a positive total. */
  predicate ValidWeights(weights: seq<real>) {
    (forall i :: 0 <= i < |weights| ==> 0.0 <= weights[i]) && 0.0 < SumReals(weights)
  }

  /** A weight list the mean accepts, of at least one weight. */
  type Weights = w: seq<real> | 1 <= |w| && ValidWeights(w) witness [1.0]

  /** `Mean.evaluate(values, weights)`: `Σ wᵢ·vᵢ / Σ wᵢ`. */
  function WeightedAverage(values: seq<real>, weights: seq<real>): real
    requires |values| == |weights|
    requires ValidWeights(weights)
  {
    Dot(values, weights) / SumReals(weights)
  }

  /** The window after one `addValue(value)`: created full of `value` if there was
      none, then the oldest sample dropped and `value` appended. */
  function Added(window: Option<seq<real>>, value: real, size: nat): (w: seq<real>)
    requires 1 <= size
    requires window.Some? ==> |window.value| == size
    ensures |w| == size
    ensures w[size - 1] == value
    ensures window.Some? ==> w[..size - 1] == window.value[1..]
    ensures window.None? ==> w == Fill(value, size)
  {
    var full := window.GetOr(Fill(value, size));
    full[1..] + [value]
  }

  /** `count` consecutive adds of the same value. */
  function AddedTimes(window: Option<seq<real>>, value: real, count: int, size: nat): (w: Option<seq<real>>)
    requires 1 <= size
    requires window.Some? ==> |window.value| == size
    ensures w.Some? ==> |w.value| == size
    ensures count <= 0 ==> w == window
    ensures 0 < count ==> w.Some?
    decreases count
  {
    if count <= 0 then window
    else AddedTimes(Some(Added(window, value, size)), value, count - 1, size)
  }

  /** The mean as `getMean` reports it: 0 while there is no window. */
  function Mean(window: Option<seq<real>>, weights: seq<real>): (m: real)
    requires window.Some? ==> |window.value| == |weights|
    requires window.Some? ==> ValidWeights(weights)
    ensures window.None? ==> m == 0.0
  {
    if window.None? then 0.0 else WeightedAverage(window.value, weights)
  }

  /** Every sample in the window lies within `[low, high]`. */
  predicate WindowWithin(window: Option<seq<real>>, low: real, high: real) {
    window.Some? ==> forall i :: 0 <= i < |window.value| ==> low <= window.value[i] <= high
  }

  /** Adding a value from `[low, high]` keeps every sample there. */
  lemma AddedWithin(window: Option<seq<real>>, value: real, size: nat, low: real, high: real)
    requires 1 <= size
    requires window.Some? ==> |window.value| == size
    requires WindowWithin(window, low, high) && low <= value <= high
    ensures WindowWithin(Some(Added(window, value, size)), low, high)
  {
    var w := Added(window, value, size);
    forall i | 0 <= i < |w|
      ensures low <= w[i] <= high
    {
      if i < |w| - 1 && window.Some? {
        assert w[i] == w[..|w| - 1][i] == window.value[i + 1];
      }
    }
  }

  lemma {:induction false} AddedTimesWithin(window: Option<seq<real>>, value: real, count: int, size: nat, low: real, high: real)
    requires 1 <= size
    requires window.Some? ==> |window.value| == size
    requires WindowWithin(window, low, high) && low <= value <= high
    ensures WindowWithin(AddedTimes(window, value, count, size), low, high)
    decreases count
  {
    if count > 0 {
      AddedWithin(window, value, size, low, high);
      AddedTimesWithin(Some(Added(window, value, size)), value, count - 1, size, low, high);
    }
  }

  /** The first add fills the whole window with the value. */
  lemma FirstAddFillsWindow(value: real, size: nat)
    requires 1 <= size
    ensures Added(None, value, size) == Fill(value, size)
  {
  }

  /** `count` adds of the same value after each other leave the last
      `min(count, size)` samples equal to it and shift the rest. */
  lemma {:induction false} AddedTimesShifts(window: seq<real>, value: real, count: nat, size: nat)
    requires 1 <= size && |window| == size
    ensures forall i :: size - count <= i < size && 0 <= i ==> AddedTimes(Some(window), value, count, size).value[i] == value
    ensures count < size ==> AddedTimes(Some(window), value, count, size).value[..size - count] == window[count..]
    decreases count
  {
    if count > 0 {
      var next := Added(Some(window), value, size);
      AddedTimesShifts(next, value, count - 1, size);
      var w := AddedTimes(Some(window), value, count, size).value;
      assert w == AddedTimes(Some(next), value, count - 1, size).value;
      if count < size {
        assert next[count - 1..][..size - count] == next[count - 1..size - 1];
        assert forall i :: 0 <= i < size - count ==> w[i] == next[count - 1 + i] == window[count + i];
      }
    }
  }

  /** After `size` adds of the same value the window holds nothing else,
      whatever it held before. */
  lemma WindowForgetsHistory(window: Option<seq<real>>, value: real, count: int, size: nat)
    requires 1 <= size && size <= count
    requires window.Some? ==> |window.value| == size
    ensures AddedTimes(window, value, count, size) == Some(Fill(value, size))
  {
    var first := Added(window, value, size);
    AddedTimesShifts(first, value, count - 1, size);
    var w := AddedTimes(Some(first), value, count - 1, size).value;
    assert AddedTimes(window, value, count, size) == Some(w);
    if count == size {
      assert w[..1] == first[size - 1..];
      assert w[0] == w[..1][0] == first[size - 1] == value;
      forall i | 0 <= i < size ensures w[i] == value {
        if i > 0 {
          assert size - (count - 1) <= i;
        }
      }
    } else {
      assert size - (count - 1) <= 0;
      forall i | 0 <= i < size ensures w[i] == value {
        assert size - (count - 1) <= i && 0 <= i < size;
      }
    }
    assert w == Fill(value, size);
  }

  lemma {:induction false} DotSplitLast(values: seq<real>, weights: seq<real>)
    requires |values| == |weights| && 1 <= |values|
    ensures var n := |values| - 1;
      Dot(values, weights) == Dot(values[..n], weights[..n]) + values[n] * weights[n]
  {
    var n := |values| - 1;
    if n > 0 {
      DotSplitLast(values[1..], weights[1..]);
      assert values[1..][..n - 1] == values[..n][1..];
      assert weights[1..][..n - 1] == weights[..n][1..];
    }
  }

  lemma {:induction false} SumRealsSplitLast(s: seq<real>)
    requires 1 <= |s|
    ensures SumReals(s) == SumReals(s[..|s| - 1]) + s[|s| - 1]
  {
    if |s| > 1 {
      SumRealsSplitLast(s[1..]);
      assert s[1..][..|s| - 2] == s[..|s| - 1][1..];
    }
  }

  lemma {:induction false} DotOfConstant(value: real, weights: seq<real>)
    ensures Dot(Fill(value, |weights|), weights) == value * SumReals(weights)
  {
    if weights != [] {
      assert Fill(value, |weights|)[1..] == Fill(value, |weights[1..]|);
      DotOfConstant(value, weights[1..]);
    }
  }

  /** The mean of a window holding one value only is that value. */
  lemma MeanOfConstant(value: real, weights: seq<real>)
    requires ValidWeights(weights)
    ensures WeightedAverage(Fill(value, |weights|), weights) == value
  {
    DotOfConstant(value, weights);
  }

  lemma {:induction false} DotAtLeast(values: seq<real>, weights: seq<real>, low: real)
    requires |values| == |weights|
    requires forall i :: 0 <= i < |weights| ==> 0.0 <= weights[i]
    requires forall i :: 0 <= i < |values| ==> low <= values[i]
    ensures low * SumReals(weights) <= Dot(values, weights)
  {
    if values != [] {
      DotAtLeast(values[1..], weights[1..], low);
      assert (values[0] - low) * weights[0] >= 0.0;
    }
  }

  lemma {:induction false} DotAtMost(values: seq<real>, weights: seq<real>, high: real)
    requires |values| == |weights|
    requires forall i :: 0 <= i < |weights| ==> 0.0 <= weights[i]
    requires forall i :: 0 <= i < |values| ==> values[i] <= high
    ensures Dot(values, weights) <= high * SumReals(weights)
  {
    if values != [] {
      DotAtMost(values[1..], weights[1..], high);
      assert (high - values[0]) * weights[0] >= 0.0;
    }
  }

  /** The mean is never below the smallest sample. */
  lemma MeanAtLeast(values: seq<real>, weights: seq<real>, low: real)
    requires |values| == |weights|
    requires ValidWeights(weights)
    requires forall i :: 0 <= i < |values| ==> low <= values[i]
    ensures low <= WeightedAverage(values, weights)
  {
    DotAtLeast(values, weights, low);
    QuotientBounds(Dot(values, weights), SumReals(weights), low, Dot(values, weights) / SumReals(weights));
  }

  /** The mean lies between the smallest and the largest sample. */
  lemma MeanWithinSamples(values: seq<real>, weights: seq<real>, low: real, high: real)
    requires |values| == |weights|
    requires ValidWeights(weights)
    requires forall i :: 0 <= i < |values| ==> low <= values[i] <= high
    ensures low <= WeightedAverage(values, weights) <= high
  {
    DotAtLeast(values, weights, low);
    DotAtMost(values, weights, high);
    QuotientBounds(Dot(values, weights), SumReals(weights), low, high);
  }

  lemma QuotientBounds(d: real, s: real, low: real, high: real)
    requires 0.0 < s && low * s <= d <= high * s
    ensures low <= d / s <= high
  {
  }
}

/**
  The `WeightedMean` of the controller package: `clear`, `addValue`,
  `getMean` and `nextValue`. The window is absent (`null` in the source)
  until the first add and after `clear`.
 */
module ControllerMean {
  import opened Common
  import opened MeanWindow

  class WeightedMean {
    const weights: seq<real>
    var window: Option<seq<real>>

    ghost predicate Valid()
      reads this
    {
      window.Some? ==> |window.value| == |weights|
    }

    constructor (weights: seq<real>)
      ensures Valid()
      ensures this.weights == weights && window == None
    {
      this.weights := weights;
      window := None;
    }

    /** `clear`: forgets every sample. */
    method Clear()
      modifies this
      ensures Valid() && window == None
    {
      window := None;
    }

    /** `addValue`; the window size must be at least one. */
    method AddValue(value: real)
      requires Valid() && 1 <= |weights|
      modifies this
      ensures Valid()
      ensures window == Some(Added(old(window), value, |weights|))
    {
      var full: seq<real>;
      if window.None? {
        full := FillWindow(value, |weights|);
      } else {
        full := window.value;
      }
      window := Some(full[1..] + [value]);
    }

    /** `getMean` */
    method GetMean() returns (m: real)
      requires Valid()
      requires window.Some? ==> ValidWeights(weights)
      ensures m == Mean(window, weights)
    {
      if window.None? {
        return 0.0;
      }
      var d := WeightedDot(window.value, weights);
      var total := SumOfWeights(weights);
      m := d / total;
    }

    /** `nextValue`: add, then report the mean. */
    method NextValue(value: real) returns (m: real)
      requires Valid() && 1 <= |weights| && ValidWeights(weights)
      modifies this
      ensures Valid()
      ensures window == Some(Added(old(window), value, |weights|))
      ensures m == WeightedAverage(window.value, weights)
    {
      AddValue(value);
      m := GetMean();
    }
  }

  /** `DoubleStream.generate(() -> value).limit(size)` */
  method FillWindow(value: real, size: nat) returns (s: seq<real>)
    ensures s == Fill(value, size)
  {
    s := [];
    while |s| < size
      invariant |s| <= size
      invariant s == Fill(value, |s|)
    {
      s := s + [value];
    }
  }

  /** The weighted sum computed by `Mean.evaluate`. */
  method WeightedDot(values: seq<real>, weights: seq<real>) returns (d: real)
    requires |values| == |weights|
    ensures d == Dot(values, weights)
  {
    d := 0.0;
    var i := |values|;
    while i > 0
      invariant 0 <= i <= |values|
      invariant d == Dot(values[i..], weights[i..])
    {
      i := i - 1;
      assert values[i..][1..] == values[i + 1..] && weights[i..][1..] == weights[i + 1..];
      d := values[i] * weights[i] + d;
    }
  }

  method SumOfWeights(weights: seq<real>) returns (s: real)
    ensures s == SumReals(weights)
  {
    s := 0.0;
    var i := |weights|;
    while i > 0
      invariant 0 <= i <= |weights|
      invariant s == SumReals(weights[i..])
    {
      i := i - 1;
      assert weights[i..][1..] == weights[i + 1..];
      s := weights[i] + s;
    }
  }
}

/**
  The `WeightedMean` of the SolarEdge inverter: the same window, plus adds
  that repeat a value several times, chosen by how far the value lies from
  the current mean.
 */
module SolarEdgeMean {
  import opened Common
  import opened MeanWindow

  /** How many times `addValue(value, countLower, countHigher)` adds `value`:
      `countHigher` above 110 % of the mean, `countLower` below 90 % of it,
      once otherwise. */
  function BiasedCount(mean: real, value: real, countLower: int, countHigher: int): (n: int)
    ensures mean * 1.1 < value ==> n == countHigher
    ensures mean * 0.9 > value && mean * 1.1 >= value ==> n == countLower
    ensures mean * 0.9 <= value <= mean * 1.1 ==> n == 1
  {
    if mean * 1.1 < value then countHigher
    else if mean * 0.9 > value then countLower
    else 1
  }

  class WeightedMean {
    const weights: seq<real>
    var window: Option<seq<real>>

    ghost predicate Valid()
      reads this
    {
      window.Some? ==> |window.value| == |weights|
    }

    constructor (weights: seq<real>)
      ensures Valid()
      ensures this.weights == weights && window == None
    {
      this.weights := weights;
      window := None;
    }

    /** `addValue(value)`; the window size must be at least one. */
    method AddValue(value: real)
      requires Valid() && 1 <= |weights|
      modifies this
      ensures Valid()
      ensures window == Some(Added(old(window), value, |weights|))
    {
      var full: seq<real>;
      if window.None? {
        full := Fill(value, |weights|);
      } else {
        full := window.value;
      }
      window := Some(full[1..] + [value]);
    }

    /** `addValue(value, count)`: `count` adds, none when `count <= 0`. */
    method AddValueTimes(value: real, count: int)
      requires Valid() && 1 <= |weights|
      modifies this
      ensures Valid()
      ensures window == AddedTimes(old(window), value, count, |weights|)
    {
      var i := 0;
      while i < count
        invariant Valid()
        invariant 0 <= i && (0 < count ==> i <= count)
        invariant AddedTimes(old(window), value, count, |weights|) == AddedTimes(window, value, count - i, |weights|)
      {
        AddValue(value);
        i := i + 1;
      }
    }

    /** `addValue(value, countLower, countHigher)` */
    method AddValueBiased(value: real, countLower: int, countHigher: int)
      requires Valid() && 1 <= |weights|
      requires window.Some? ==> ValidWeights(weights)
      modifies this
      ensures Valid()
      ensures window == AddedTimes(old(window), value,
        BiasedCount(Mean(old(window), weights), value, countLower, countHigher), |weights|)
    {
      var currentMean := GetMean();
      if currentMean * 1.1 < value {
        AddValueTimes(value, countHigher);
      } else if currentMean * 0.9 > value {
        AddValueTimes(value, countLower);
      } else {
        AddValue(value);
      }
    }

    /** `getMean` */
    method GetMean() returns (m: real)
      requires Valid()
      requires window.Some? ==> ValidWeights(weights)
      ensures m == Mean(window, weights)
    {
      if window.None? {
        return 0.0;
      }
      m := Dot(window.value, weights) / SumReals(weights);
    }
  }

  /** A value more than 10 % above the mean, added `countHigher >= size` times,
      replaces the whole window: the mean jumps to it at once. */
  lemma JumpUpReplacesWindow(window: Option<seq<real>>, weights: seq<real>, value: real, countLower: int, countHigher: int)
    requires 1 <= |weights| && ValidWeights(weights)
    requires window.Some? ==> |window.value| == |weights|
    requires Mean(window, weights) * 1.1 < value
    requires |weights| <= countHigher
    ensures var w := AddedTimes(window, value,
        BiasedCount(Mean(window, weights), value, countLower, countHigher), |weights|);
      w == Some(Fill(value, |weights|)) && Mean(w, weights) == value
  {
    WindowForgetsHistory(window, value, countHigher, |weights|);
    MeanOfConstant(value, weights);
  }

  /** A value within 10 % of the mean is added exactly once. */
  lemma SmallChangeAddsOnce(window: Option<seq<real>>, weights: seq<real>, value: real, countLower: int, countHigher: int)
    requires 1 <= |weights|
    requires window.Some? ==> |window.value| == |weights| && ValidWeights(weights)
    requires Mean(window, weights) * 0.9 <= value <= Mean(window, weights) * 1.1
    ensures AddedTimes(window, value,
        BiasedCount(Mean(window, weights), value, countLower, countHigher), |weights|)
      == Some(Added(window, value, |weights|))
  {
  }
}
