/**
  The paragraph 14a controller for several PV inverters and EVCS clusters.

  Each cycle it sums the inverters' production, derives a limit for the sum
  of the inverters from the production level, ramps that limit (slowly up,
  faster down, ignoring small increases up to four times in a row), shares
  it out in proportion to the inverters' hardware maxima, and distributes a
  charging budget that depends on the consumption level over the EVCS
  clusters in their configured order.

  Inverters and clusters are identified by their component id. Channel
  readings are passed in as `Option` values (`None` for an undefined value).
 */
module MultiInverterController {
  import opened Common
  import P = ProductionLevels
  import C = ConsumptionLevels
  import R = RelaisMode

  type InverterId = string
  type ClusterId = string

  // ------------------------------------------------------------------
  // PV inverter limit: specification
  // ------------------------------------------------------------------

  /** The limit for the sum of all inverters before ramping:
      the allowed share of the hardware maximum, plus what is currently fed
      into the grid and produced, clamped to `[0, hardwareMax]`. */
  function TargetSum(hardwareMax: int, factor: int, gridActivePower: int, pvSum: int): (t: int)
    ensures 0 <= hardwareMax ==> 0 <= t <= hardwareMax
    ensures hardwareMax < 0 ==> t == 0
    ensures 0 <= FloorDiv(hardwareMax * factor, 100) + gridActivePower + pvSum <= hardwareMax ==>
      t == FloorDiv(hardwareMax * factor, 100) + gridActivePower + pvSum
  {
    FitWithin(0, hardwareMax, FloorDiv(hardwareMax * factor, 100) + gridActivePower + pvSum)
  }

  /** What one ramp step decides: either return early and keep the previous
      limits (`Hold`), or apply a new sum. Both carry the new small-increase
      counter. */
  datatype RampOutcome = Hold(count: int) | Apply(sum: int, count: int)

  /** The ramp of `calculatePvInverterLimits` for a restricted production level. */
  function Ramp(last: Option<int>, count: int, target: int, hardwareMax: int): (o: RampOutcome)
    // no previous sum, or a small target: applied as it is
    ensures last.None? || target <= 100 ==> o == Apply(target, count)
    // increase: never beyond the target, never below the previous sum
    ensures last.Some? && 100 < target && last.value < target && o.Apply? ==>
      last.value <= o.sum <= target && o.count == 0
    // decrease: never below the target, never above the previous sum
    ensures last.Some? && 100 < target && target <= last.value ==>
      o.Apply? && target <= o.sum <= last.value && o.count == count
    // early return only on a small increase, counting it
    ensures o.Hold? <==>
      last.Some? && 100 < target && last.value < target &&
      target - last.value < FloorDiv(hardwareMax, 200) && count + 1 < 5
    ensures o.Hold? ==> o.count == count + 1
    // the fifth small increase in a row applies the full target
    ensures (last.Some? && 100 < target && last.value < target &&
             target - last.value < FloorDiv(hardwareMax, 200) && 5 <= count + 1) ==>
      o == Apply(target, 0)
    // a large increase moves up by a fifth of the difference
    ensures (last.Some? && 100 < target && last.value < target &&
             FloorDiv(hardwareMax, 200) <= target - last.value) ==>
      o == Apply(last.value + FloorDiv(target - last.value, 5), 0)
    // a decrease moves down by half of the difference
    ensures last.Some? && 100 < target && target <= last.value ==>
      o.sum == Max(last.value - FloorDiv(last.value - target, 2), target)
  {
    if last.None? || target <= 100 then Apply(target, count)
    else
      var previous := last.value;
      var diff := Abs(previous - target);
      if target > previous then
        if diff < FloorDiv(hardwareMax, 200) then
          if count + 1 < 5 then Hold(count + 1)
          else Apply(Min(previous + diff, target), 0)
        else Apply(Min(previous + FloorDiv(diff, 5), target), 0)
      else Apply(Max(previous - FloorDiv(diff, 2), target), count)
  }

  /** The limit of one inverter: its share of `sum` in proportion to its hardware
      maximum, rounded down and clamped to `[0, hardware]`. */
  function Share(sum: int, hardware: int, hardwareMax: int): (s: int)
    ensures 0 <= hardware ==> 0 <= s <= hardware
    ensures 0 < hardwareMax && 0 <= hardware && 0 <= sum <= hardwareMax ==>
      s * hardwareMax <= sum * hardware < s * hardwareMax + hardwareMax
  {
    var share := if hardwareMax == 0 then 0 else FloorDiv(sum * hardware, hardwareMax);
    if 0 < hardwareMax && 0 <= hardware && 0 <= sum <= hardwareMax then
      ShareWithinHardware(sum, hardware, hardwareMax, share);
      FitWithin(0, hardware, share)
    else
      FitWithin(0, hardware, share)
  }

  lemma ShareWithinHardware(sum: int, hardware: int, hardwareMax: int, share: int)
    requires 0 < hardwareMax && 0 <= hardware && 0 <= sum <= hardwareMax
    requires share * hardwareMax <= sum * hardware < share * hardwareMax + hardwareMax
    ensures 0 <= share <= hardware
  {
  }

  /** The per-inverter limits for the sum `sum`, in the order of the hardware map. */
  function Limits(maxHardware: seq<(InverterId, int)>, sum: int, hardwareMax: int): (l: seq<(InverterId, int)>)
    ensures |l| == |maxHardware|
    ensures Keys(l) == Keys(maxHardware)
    ensures forall i :: 0 <= i < |l| ==> l[i].1 == Share(sum, maxHardware[i].1, hardwareMax)
  {
    seq(|maxHardware|, i requires 0 <= i < |maxHardware| =>
      (maxHardware[i].0, Share(sum, maxHardware[i].1, hardwareMax)))
  }

  /** The limits never add up to more than the applied sum and fall short of it
      by less than one watt per inverter. */
  lemma LimitsAddUpToSum(maxHardware: seq<(InverterId, int)>, sum: int)
    requires forall i :: 0 <= i < |maxHardware| ==> 0 <= maxHardware[i].1
    requires 0 < SumInts(Values(maxHardware))
    requires 0 <= sum <= SumInts(Values(maxHardware))
    ensures var total := SumInts(Values(Limits(maxHardware, sum, SumInts(Values(maxHardware)))));
      total <= sum && sum - total < |maxHardware|
  {
    var hw := Values(maxHardware);
    var h := SumInts(hw);
    var shares := Values(Limits(maxHardware, sum, h));
    forall i | 0 <= i < |hw|
      ensures shares[i] * h <= sum * hw[i] < shares[i] * h + h
    {
      assert shares[i] == Share(sum, hw[i], h);
    }
    ScaledSharesBound(hw, shares, sum, h);
    var t := SumInts(shares);
    assert |hw| > 0;
    SharesTotalBound(t, sum, |hw|, h);
  }

  lemma SharesTotalBound(t: int, sum: int, n: int, h: int)
    requires 0 < h && 0 < n
    requires t * h <= sum * h <= t * h + n * (h - 1)
    ensures t <= sum && sum - t < n
  {
  }

  /** Summing the defining inequalities of every share. */
  lemma ScaledSharesBound(hw: seq<int>, shares: seq<int>, sum: int, h: int)
    requires |hw| == |shares|
    requires 0 < h
    requires forall i :: 0 <= i < |hw| ==>
      shares[i] * h <= sum * hw[i] < shares[i] * h + h
    ensures SumInts(shares) * h <= sum * SumInts(hw) <= SumInts(shares) * h + |hw| * (h - 1)
  {
    var n := |hw|;
    var scaledShares := seq(|shares|, i requires 0 <= i < |shares| => shares[i] * h);
    var scaledHw := seq(n, i requires 0 <= i < n => sum * hw[i]);
    forall i | 0 <= i < n
      ensures scaledShares[i] <= scaledHw[i] <= scaledShares[i] + (h - 1)
    {
      ShareWithinStep(shares[i] * h, sum * hw[i], h);
    }
    SumBetween(scaledShares, scaledHw, h - 1);
    SumScaled(shares, h);
    SumScaledLeft(hw, sum);
  }

  lemma ShareWithinStep(scaledShare: int, scaledHw: int, h: int)
    requires scaledShare <= scaledHw < scaledShare + h
    ensures scaledShare <= scaledHw <= scaledShare + (h - 1)
  {
  }

  lemma {:induction false} SumBetween(a: seq<int>, b: seq<int>, d: int)
    requires |a| == |b|
    requires forall i :: 0 <= i < |a| ==> a[i] <= b[i] <= a[i] + d
    ensures SumInts(a) <= SumInts(b) <= SumInts(a) + |a| * d
  {
    if a != [] {
      SumBetween(a[1..], b[1..], d);
      assert |a| * d == d + |a[1..]| * d;
    }
  }

  lemma {:induction false} SumScaledLeft(s: seq<int>, c: int)
    ensures SumInts(seq(|s|, i requires 0 <= i < |s| => c * s[i])) == c * SumInts(s)
  {
    if s != [] {
      var t := seq(|s|, i requires 0 <= i < |s| => c * s[i]);
      assert t[1..] == seq(|s[1..]|, i requires 0 <= i < |s[1..]| => c * s[1..][i]);
      SumScaledLeft(s[1..], c);
      assert c * (s[0] + SumInts(s[1..])) == c * s[0] + c * SumInts(s[1..]);
    }
  }

  lemma {:induction false} SumScaled(s: seq<int>, c: int)
    ensures SumInts(seq(|s|, i requires 0 <= i < |s| => s[i] * c)) == SumInts(s) * c
  {
    if s != [] {
      var t := seq(|s|, i requires 0 <= i < |s| => s[i] * c);
      assert t[1..] == seq(|s[1..]|, i requires 0 <= i < |s[1..]| => s[1..][i] * c);
      SumScaled(s[1..], c);
      assert (s[0] + SumInts(s[1..])) * c == s[0] * c + SumInts(s[1..]) * c;
    }
  }

  lemma {:induction false} SumMonotone(a: seq<int>, b: seq<int>)
    requires |a| == |b|
    requires forall i :: 0 <= i < |a| ==> a[i] <= b[i]
    ensures SumInts(a) <= SumInts(b)
  {
    if a != [] {
      SumMonotone(a[1..], b[1..]);
    }
  }

  /** The ramp as a whole never leaves `[0, hardwareMax]` once it is there. */
  lemma RampStaysWithinHardware(last: Option<int>, count: int, target: int, hardwareMax: int)
    requires 0 <= target <= hardwareMax
    requires last.Some? ==> 0 <= last.value <= hardwareMax
    ensures Ramp(last, count, target, hardwareMax).Apply? ==>
      0 <= Ramp(last, count, target, hardwareMax).sum <= hardwareMax
  {
  }

  /** Rising targets: from any sum below a target of more than 100 and with a
      hardware maximum of at least 1000, applying the ramp repeatedly reaches
      the target. A small difference takes at most five steps; a large one
      shrinks by at least a fifth, rounded down, in every step. */
  lemma {:induction false} IncreaseReachesTarget(last: int, count: int, target: int, hardwareMax: int)
    requires 100 < target && last < target
    requires 1000 <= hardwareMax
    requires 0 <= count
    ensures RampSteps(last, count, target, hardwareMax, (target - last) + 5) == target
    decreases target - last
  {
    var o := Ramp(Some(last), count, target, hardwareMax);
    var diff := target - last;
    if diff < FloorDiv(hardwareMax, 200) {
      SmallIncreaseReachesTarget(last, count, target, hardwareMax, diff + 5);
    } else {
      assert 5 <= diff;
      assert o.sum == last + FloorDiv(diff, 5) && last < o.sum < target;
      IncreaseReachesTarget(o.sum, 0, target, hardwareMax);
      RampStepsMonotone(o.sum, 0, target, hardwareMax, (target - o.sum) + 5, diff + 4);
    }
  }

  /** Applies the ramp `steps` times from the previous sum `last` and returns
      the last sum (a `Hold` keeps the sum). */
  function RampSteps(last: int, count: int, target: int, hardwareMax: int, steps: nat): int
    decreases steps
  {
    if steps == 0 then last
    else match Ramp(Some(last), count, target, hardwareMax)
      case Hold(c) => RampSteps(last, c, target, hardwareMax, steps - 1)
      case Apply(s, c) => RampSteps(s, c, target, hardwareMax, steps - 1)
  }

  lemma {:induction false} StableAtTarget(target: int, count: int, hardwareMax: int, steps: nat)
    requires 100 < target
    ensures RampSteps(target, count, target, hardwareMax, steps) == target
  {
    if steps > 0 {
      StableAtTarget(target, count, hardwareMax, steps - 1);
    }
  }

  lemma {:induction false} SmallIncreaseReachesTarget(last: int, count: int, target: int, hardwareMax: int, steps: nat)
    requires 100 < target && last < target
    requires target - last < FloorDiv(hardwareMax, 200)
    requires 0 <= count
    requires 1 <= steps && 5 - count <= steps
    ensures RampSteps(last, count, target, hardwareMax, steps) == target
    decreases steps
  {
    if count + 1 < 5 {
      SmallIncreaseReachesTarget(last, count + 1, target, hardwareMax, steps - 1);
    } else {
      StableAtTarget(target, 0, hardwareMax, steps - 1);
    }
  }

  lemma {:induction false} RampStepsMonotone(last: int, count: int, target: int, hardwareMax: int, steps: nat, more: nat)
    requires 100 < target
    requires steps <= more
    requires RampSteps(last, count, target, hardwareMax, steps) == target
    ensures RampSteps(last, count, target, hardwareMax, more) == target
    decreases steps
  {
    if steps == 0 {
      StableAtTarget(target, count, hardwareMax, more);
    } else {
      match Ramp(Some(last), count, target, hardwareMax)
      case Hold(c) => RampStepsMonotone(last, c, target, hardwareMax, steps - 1, more - 1);
      case Apply(s, c) => RampStepsMonotone(s, c, target, hardwareMax, steps - 1, more - 1);
    }
  }

  /** A decrease by one watt is never applied: half of a difference of one is
      zero, so the previous sum stays one watt above the target. */
  lemma {:induction false} DecreaseByOneStalls(target: int, count: int, hardwareMax: int, steps: nat)
    requires 100 < target
    ensures RampSteps(target + 1, count, target, hardwareMax, steps) == target + 1
  {
    if steps > 0 {
      assert Ramp(Some(target + 1), count, target, hardwareMax) == Apply(target + 1, count);
      DecreaseByOneStalls(target, count, hardwareMax, steps - 1);
    }
  }

  /** An increase by less than five watts that does not count as small (which
      needs a hardware maximum below 1000 watts) is never applied: a fifth of
      it is zero. */
  lemma {:induction false} LargeButTinyIncreaseStalls(last: int, count: int, target: int, hardwareMax: int, steps: nat)
    requires 100 < target && last < target
    requires FloorDiv(hardwareMax, 200) <= target - last < 5
    ensures hardwareMax < 1000
    ensures RampSteps(last, count, target, hardwareMax, steps) == last
    decreases steps
  {
    if steps > 0 {
      assert Ramp(Some(last), count, target, hardwareMax) == Apply(last, 0);
      LargeButTinyIncreaseStalls(last, 0, target, hardwareMax, steps - 1);
    }
  }

  // ------------------------------------------------------------------
  // EVCS budget and its distribution: specification
  // ------------------------------------------------------------------

  /** `determineGleichzeitigkeitsfaktor`: the simultaneity factor in percent for
      a number of charging stations. */
  function SimultaneityFactor(evcs: int): (f: int)
    ensures evcs < 2 ==> f == 0
    ensures 2 <= evcs <= 8 ==> f == 80 - 5 * (evcs - 2)
    ensures 8 < evcs ==> f == 45
  {
    if evcs < 2 then 0
    else if evcs == 2 then 80
    else if evcs == 3 then 75
    else if evcs == 4 then 70
    else if evcs == 5 then 65
    else if evcs == 6 then 60
    else if evcs == 7 then 55
    else if evcs == 8 then 50
    else 45
  }

  /** The minimum power that must stay available for `evcs` charging stations
      (4.2 kW for the first, scaled by the simultaneity factor for the rest). */
  function MinimumPower(evcs: int): (p: int)
    ensures evcs <= 1 ==> p == 4200
    ensures 1 < evcs ==> p == 4200 + (evcs - 1) * SimultaneityFactor(evcs) * 42
  {
    4200 + (evcs - 1) * SimultaneityFactor(evcs) * 42
  }

  /** More charging stations never lower the guaranteed minimum power. */
  lemma {:induction false} MinimumPowerMonotone(n: int, m: int)
    requires 0 <= n <= m
    ensures MinimumPower(n) <= MinimumPower(m)
    ensures 1 <= n < m ==> MinimumPower(n) < MinimumPower(m)
    decreases m - n
  {
    if n < m {
      MinimumPowerStep(m - 1);
      MinimumPowerMonotone(n, m - 1);
    }
  }

  lemma MinimumPowerStep(n: int)
    requires 0 <= n
    ensures MinimumPower(n) <= MinimumPower(n + 1)
    ensures 1 <= n ==> MinimumPower(n) < MinimumPower(n + 1)
  {
    if 9 <= n {
      assert MinimumPower(n + 1) - MinimumPower(n) == 45 * 42;
    }
  }

  /** `calcAllowedPowerToDistributeOnEvcsClusters`: the budget for all clusters;
      -1 stands for "no limit". */
  function AllowedPower(consumption: C.ConsumptionManagment, evcsCount: int, pvSum: int): (b: int)
    ensures consumption == C.Full ==> b == -1
    ensures consumption == C.Reduced ==> b == MinimumPower(evcsCount) + pvSum
    ensures consumption == C.Off ==> b == pvSum
    ensures consumption == C.Unused ==> b == 0
  {
    match consumption
    case Full => -1
    case Reduced => MinimumPower(evcsCount) + pvSum
    case Off => pvSum
    case Unused => 0
  }

  /** The first pass of `distributePower`: every cluster in order is granted its
      current power, but no more than what is left. */
  function FirstPass(left: int, powers: seq<int>): (grants: seq<int>)
    requires 0 <= left
    ensures |grants| == |powers|
    ensures forall i :: 0 <= i < |grants| ==> 0 <= grants[i]
    ensures SumInts(grants) <= left
  {
    if powers == [] then []
    else
      var g := FitWithin(0, left, powers[0]);
      [g] + FirstPass(left - g, powers[1..])
  }

  /** Sequential `put`s of `values[i]` under `keys[i]`. */
  function PutAll<K>(m: map<K, int>, keys: seq<K>, values: seq<int>): (r: map<K, int>)
    requires |keys| == |values|
    ensures r.Keys == m.Keys + set i | 0 <= i < |keys| :: keys[i]
    decreases |keys|
  {
    if keys == [] then m else PutAll(m[keys[0] := values[0]], keys[1..], values[1..])
  }

  /** The second pass: `extra` is added once for every occurrence of a cluster. */
  function AddAll<K>(m: map<K, int>, keys: seq<K>, extra: int): (r: map<K, int>)
    requires forall i :: 0 <= i < |keys| ==> keys[i] in m
    ensures r.Keys == m.Keys
    decreases |keys|
  {
    if keys == [] then m else AddAll(m[keys[0] := m[keys[0]] + extra], keys[1..], extra)
  }

  /** `distributePower`: the power granted to each cluster. */
  function Distribution(budget: int, clusters: seq<ClusterId>, powers: seq<int>): (r: map<ClusterId, int>)
    requires |clusters| == |powers|
    ensures r.Keys == set i | 0 <= i < |clusters| :: clusters[i]
  {
    if budget < 1 then PutAll(map[], clusters, Fill(budget, |clusters|))
    else
      var grants := FirstPass(budget, powers);
      var granted := PutAll(map[], clusters, grants);
      var left := budget - SumInts(grants);
      if left > 0 then
        var extra := if |clusters| == 0 then 0 else FloorDiv(left, |clusters|);
        AddAll(granted, clusters, extra)
      else granted
  }

  lemma PutAllStep<K>(m: map<K, int>, keys: seq<K>, values: seq<int>)
    requires |keys| == |values| && keys != []
    ensures PutAll(m, keys, values) == PutAll(m[keys[0] := values[0]], keys[1..], values[1..])
  {
  }

  lemma {:induction false} PutAllDistinct<K>(m: map<K, int>, keys: seq<K>, values: seq<int>)
    requires |keys| == |values|
    requires Distinct(keys)
    ensures forall i :: 0 <= i < |keys| ==> PutAll(m, keys, values)[keys[i]] == values[i]
    ensures forall k :: k in m && k !in keys ==> PutAll(m, keys, values)[k] == m[k]
    decreases |keys|
  {
    if keys != [] {
      PutAllDistinct(m[keys[0] := values[0]], keys[1..], values[1..]);
      var r := PutAll(m, keys, values);
      forall i | 0 <= i < |keys| ensures r[keys[i]] == values[i] {
        if i > 0 {
          assert keys[1..][i - 1] == keys[i];
        }
      }
    }
  }

  lemma {:induction false} AddAllDistinct<K>(m: map<K, int>, keys: seq<K>, extra: int)
    requires forall i :: 0 <= i < |keys| ==> keys[i] in m
    requires Distinct(keys)
    ensures forall i :: 0 <= i < |keys| ==> AddAll(m, keys, extra)[keys[i]] == m[keys[i]] + extra
    decreases |keys|
  {
    if keys != [] {
      var m' := m[keys[0] := m[keys[0]] + extra];
      AddAllDistinct(m', keys[1..], extra);
      forall i | 0 <= i < |keys| ensures AddAll(m, keys, extra)[keys[i]] == m[keys[i]] + extra {
        if i > 0 {
          assert keys[1..][i - 1] == keys[i];
        } else {
          AddAllUntouched(m', keys[1..], extra, keys[0]);
        }
      }
    }
  }

  lemma {:induction false} AddAllUntouched<K>(m: map<K, int>, keys: seq<K>, extra: int, k: K)
    requires forall i :: 0 <= i < |keys| ==> keys[i] in m
    requires k in m && k !in keys
    ensures AddAll(m, keys, extra)[k] == m[k]
    decreases |keys|
  {
    if keys != [] {
      AddAllUntouched(m[keys[0] := m[keys[0]] + extra], keys[1..], extra, k);
    }
  }

  /** The amount granted to each cluster, in list order, for distinct clusters. */
  function Granted(r: map<ClusterId, int>, clusters: seq<ClusterId>): seq<int>
    requires forall i :: 0 <= i < |clusters| ==> clusters[i] in r
  {
    seq(|clusters|, i requires 0 <= i < |clusters| => r[clusters[i]])
  }

  /** With no budget or no limit, every cluster is given the budget itself. */
  lemma DistributionWithoutBudget(budget: int, clusters: seq<ClusterId>, powers: seq<int>)
    requires |clusters| == |powers|
    requires budget < 1
    requires Distinct(clusters)
    ensures forall i :: 0 <= i < |clusters| ==> Distribution(budget, clusters, powers)[clusters[i]] == budget
  {
    PutAllDistinct(map[], clusters, Fill(budget, |clusters|));
  }

  /** With a positive budget and distinct clusters, no cluster gets a negative
      amount, all grants together stay within the budget, and less than one
      watt per cluster is left undistributed. */
  lemma DistributionWithinBudget(budget: int, clusters: seq<ClusterId>, powers: seq<int>)
    requires |clusters| == |powers|
    requires 1 <= budget
    requires Distinct(clusters)
    ensures var r := Distribution(budget, clusters, powers);
      var total := SumInts(Granted(r, clusters));
      (forall i :: 0 <= i < |clusters| ==> 0 <= r[clusters[i]]) &&
      total <= budget &&
      (0 < |clusters| ==> budget - total < |clusters|)
  {
    var grants := FirstPass(budget, powers);
    if budget - SumInts(grants) > 0 && |clusters| > 0 {
      WithinBudgetToppedUp(budget, clusters, powers);
    } else {
      var r := Distribution(budget, clusters, powers);
      PutGranted(clusters, grants);
      assert r == PutAll(map[], clusters, grants);
      forall i | 0 <= i < |clusters| ensures 0 <= r[clusters[i]] {
        assert r[clusters[i]] == Granted(r, clusters)[i];
      }
    }
  }

  /** The case of `DistributionWithinBudget` where a leftover is shared out. */
  lemma WithinBudgetToppedUp(budget: int, clusters: seq<ClusterId>, powers: seq<int>)
    requires |clusters| == |powers|
    requires 1 <= budget
    requires Distinct(clusters)
    requires budget - SumInts(FirstPass(budget, powers)) > 0 && |clusters| > 0
    ensures var r := Distribution(budget, clusters, powers);
      var total := SumInts(Granted(r, clusters));
      (forall i :: 0 <= i < |clusters| ==> 0 <= r[clusters[i]]) &&
      total <= budget && budget - total < |clusters|
  {
    var r := Distribution(budget, clusters, powers);
    var grants := FirstPass(budget, powers);
    var left := budget - SumInts(grants);
    var n := |clusters|;
    var extra := FloorDiv(left, n);
    LeftoverShare(left, n);
    TopUpGranted(clusters, grants, extra);
    assert r == AddAll(PutAll(map[], clusters, grants), clusters, extra);
    forall i | 0 <= i < n ensures 0 <= r[clusters[i]] {
      assert r[clusters[i]] == Granted(r, clusters)[i];
    }
    SumPlusConstant(grants, extra);
  }

  /** Putting distinct clusters' grants and reading them back in order gives the grants. */
  lemma PutGranted(clusters: seq<ClusterId>, grants: seq<int>)
    requires |clusters| == |grants|
    requires Distinct(clusters)
    ensures var r := PutAll(map[], clusters, grants);
      (forall i :: 0 <= i < |clusters| ==> clusters[i] in r) && Granted(r, clusters) == grants
  {
    PutAllDistinct(map[], clusters, grants);
  }

  /** Adding the same amount to every distinct cluster raises each grant by it. */
  lemma TopUpGranted(clusters: seq<ClusterId>, grants: seq<int>, extra: int)
    requires |clusters| == |grants|
    requires Distinct(clusters)
    ensures var granted := PutAll(map[], clusters, grants);
      (forall i :: 0 <= i < |clusters| ==> clusters[i] in granted) &&
      var r := AddAll(granted, clusters, extra);
      (forall i :: 0 <= i < |clusters| ==> clusters[i] in r) &&
      Granted(r, clusters) == seq(|grants|, i requires 0 <= i < |grants| => grants[i] + extra)
  {
    var granted := PutAll(map[], clusters, grants);
    PutGranted(clusters, grants);
    AddAllDistinct(granted, clusters, extra);
    var r := AddAll(granted, clusters, extra);
    var plus := seq(|grants|, i requires 0 <= i < |grants| => grants[i] + extra);
    forall i | 0 <= i < |clusters| ensures Granted(r, clusters)[i] == plus[i] {
      assert granted[clusters[i]] == Granted(granted, clusters)[i] == grants[i];
    }
  }

  /** The leftover share of `distributePower` (`Math.divideExact` of two positive values). */
  lemma LeftoverShare(left: int, n: int)
    requires 0 < left && 0 < n
    ensures 0 <= FloorDiv(left, n)
    ensures FloorDiv(left, n) * n <= left < FloorDiv(left, n) * n + n
  {
    var q := FloorDiv(left, n);
    if q < 0 {
      NegativeTimesPositive(q, n);
      assert false;
    }
  }

  lemma NegativeTimesPositive(q: int, n: int)
    requires q <= -1 && 0 < n
    ensures q * n <= -n
  {
    var k := -1 - q;
    assert q * n == -n - k * n;
  }

  lemma {:induction false} SumPlusConstant(s: seq<int>, c: int)
    ensures SumInts(seq(|s|, i requires 0 <= i < |s| => s[i] + c)) == SumInts(s) + |s| * c
  {
    if s != [] {
      var t := seq(|s|, i requires 0 <= i < |s| => s[i] + c);
      assert t[1..] == seq(|s[1..]|, i requires 0 <= i < |s[1..]| => s[1..][i] + c);
      SumPlusConstant(s[1..], c);
    }
  }

  // ------------------------------------------------------------------
  // The controller component
  // ------------------------------------------------------------------

  /** What a cycle writes to the devices and channels. */
  datatype CycleResult = CycleResult(
    pvSum: int,
    inverterLimits: seq<(InverterId, int)>,
    evcsCount: int,
    allowedPower: int,
    clusterLimits: map<ClusterId, int>)

  class Controller {
    var relaisMode: R.RelaisMode
    var production: P.ProductionManagment
    var consumption: C.ConsumptionManagment
    /** hardware maximum per inverter */
    var maxHardware: seq<(InverterId, int)>
    /** the limits written to the inverters in every cycle */
    var activePowerLimits: seq<(InverterId, int)>
    var lastLimitSum: Option<int>
    var littleDiffCount: int
    var clusters: seq<ClusterId>

    ghost predicate Valid()
      reads this
    {
      KeysDistinct(maxHardware) && KeysDistinct(activePowerLimits) && 0 <= littleDiffCount &&
      // the ramp never leaves the hardware range (when there is one)
      (lastLimitSum.Some? && 0 <= SumInts(Values(maxHardware)) ==>
         0 <= lastLimitSum.value <= SumInts(Values(maxHardware)))
    }

    /** The limits, the last applied sum and the small-increase counter after
        `calculatePvInverterLimits` ran on this production sum and grid power:
        with no production limit every inverter gets its hardware maximum;
        otherwise the ramp either holds the previous limits or shares out the
        sum it applies. */
    twostate predicate LimitsCalculated(pvSum: int, gridActivePower: Option<int>)
      reads this
    {
      var hardwareMax := SumInts(Values(maxHardware));
      if old(production) == P.Full then
        activePowerLimits == maxHardware && lastLimitSum == Some(hardwareMax) &&
        littleDiffCount == old(littleDiffCount)
      else
        var target := TargetSum(hardwareMax, production.Factor(), gridActivePower.GetOr(0), pvSum);
        match Ramp(old(lastLimitSum), old(littleDiffCount), target, hardwareMax)
        case Hold(c) =>
          activePowerLimits == old(activePowerLimits) && lastLimitSum == old(lastLimitSum) &&
          littleDiffCount == c
        case Apply(s, c) =>
          activePowerLimits == Limits(maxHardware, s, hardwareMax) && lastLimitSum == Some(s) &&
          littleDiffCount == c
    }

    constructor ()
      ensures Valid()
      ensures production == P.Off && consumption == C.Off
      ensures maxHardware == [] && activePowerLimits == [] && lastLimitSum == None
      ensures littleDiffCount == 0 && clusters == []
    {
      relaisMode := R.NoRelais;
      production := P.Off;
      consumption := C.Off;
      maxHardware := [];
      activePowerLimits := [];
      lastLimitSum := None;
      littleDiffCount := 0;
      clusters := [];
    }

    /** `activate`: both levels start at `Off`, the hardware map is filled from the
        configuration (a repeated inverter id keeps its last maximum), the ramp
        starts without a previous sum. */
    method Activate(mode: R.RelaisMode, inverterIds: seq<InverterId>, maxActivePower: seq<int>,
                    clusterIds: seq<ClusterId>)
      requires Valid()
      requires |inverterIds| <= |maxActivePower|
      modifies this
      ensures Valid()
      ensures relaisMode == mode && production == P.Off && consumption == C.Off
      ensures activePowerLimits == [] && lastLimitSum == None && clusters == clusterIds
      ensures littleDiffCount == old(littleDiffCount)
      ensures maxHardware == HardwareMapOf(inverterIds, maxActivePower)
    {
      var m := HardwareMap(inverterIds, maxActivePower);
      relaisMode := mode;
      production := P.Off;
      consumption := C.Off;
      activePowerLimits := [];
      lastLimitSum := None;
      maxHardware := m;
      clusters := clusterIds;
    }

    /** `deactivate`: both levels back to `Off`, no inverters and no clusters. */
    method Deactivate()
      requires Valid()
      modifies this
      ensures Valid()
      ensures production == P.Off && consumption == C.Off
      ensures maxHardware == [] && lastLimitSum == None && clusters == []
      ensures relaisMode == old(relaisMode) && activePowerLimits == old(activePowerLimits)
      ensures littleDiffCount == old(littleDiffCount)
    {
      production := P.Off;
      consumption := C.Off;
      maxHardware := [];
      lastLimitSum := None;
      clusters := [];
    }

    /** `mapRelaisInputsToManagementModes` */
    method MapRelaisInputs(relais: R.Relais)
      requires Valid()
      modifies this
      ensures Valid()
      ensures R.Levels(production, consumption) ==
        R.Dispatch(relaisMode, relais, R.Levels(old(production), old(consumption)))
      ensures relaisMode == old(relaisMode) && maxHardware == old(maxHardware)
      ensures activePowerLimits == old(activePowerLimits) && lastLimitSum == old(lastLimitSum)
      ensures littleDiffCount == old(littleDiffCount) && clusters == old(clusters)
    {
      var levels := R.Dispatch(relaisMode, relais, R.Levels(production, consumption));
      production := levels.production;
      consumption := levels.consumption;
    }

    /** `handleEvent`: while enabled, the relays are decoded before the
        controllers run; any other event changes nothing. */
    method HandleEvent(enabled: bool, beforeControllers: bool, relais: R.Relais)
      requires Valid()
      modifies this
      ensures Valid()
      ensures enabled && beforeControllers ==>
        R.Levels(production, consumption) ==
        R.Dispatch(relaisMode, relais, R.Levels(old(production), old(consumption)))
      ensures !(enabled && beforeControllers) ==>
        production == old(production) && consumption == old(consumption)
      ensures relaisMode == old(relaisMode) && maxHardware == old(maxHardware)
      ensures activePowerLimits == old(activePowerLimits) && lastLimitSum == old(lastLimitSum)
      ensures littleDiffCount == old(littleDiffCount) && clusters == old(clusters)
    {
      if enabled && beforeControllers {
        MapRelaisInputs(relais);
      }
    }

    /** `calculatePvInverterLimits`: with no production limit every inverter may
        produce its hardware maximum; otherwise the ramped sum is shared out. */
    method CalculatePvInverterLimits(pvSum: int, gridActivePower: Option<int>)
      requires Valid()
      modifies this
      ensures Valid()
      ensures LimitsCalculated(pvSum, gridActivePower)
      ensures relaisMode == old(relaisMode) && production == old(production) && consumption == old(consumption)
      ensures maxHardware == old(maxHardware) && clusters == old(clusters)
    {
      var hardwareMax := SumOfMaxima(maxHardware);
      if production == P.Full {
        activePowerLimits := maxHardware;
        lastLimitSum := Some(hardwareMax);
        return;
      }
      var target := TargetSum(hardwareMax, production.Factor(), gridActivePower.GetOr(0), pvSum);
      var outcome := Ramp(lastLimitSum, littleDiffCount, target, hardwareMax);
      match outcome {
        case Hold(c) =>
          littleDiffCount := c;
        case Apply(s, c) =>
          if 0 <= hardwareMax {
            RampStaysWithinHardware(lastLimitSum, littleDiffCount, target, hardwareMax);
          }
          littleDiffCount := c;
          lastLimitSum := Some(s);
          var limits := ComputeLimits(maxHardware, s, hardwareMax);
          SameKeysDistinct(maxHardware, limits);
          activePowerLimits := limits;
      }
    }

    /** One controller cycle (`run`). The inverter readings are given in the order
        of the hardware map, the cluster readings in the order of the cluster list. */
    method Run(gridActivePower: Option<int>, inverterActivePower: seq<Option<int>>,
               clusterEvcsCount: seq<Option<int>>, clusterActivePower: seq<Option<int>>)
      returns (result: CycleResult)
      requires Valid()
      requires |inverterActivePower| == |maxHardware|
      requires |clusterEvcsCount| == |clusters| && |clusterActivePower| == |clusters|
      modifies this
      ensures Valid()
      ensures relaisMode == old(relaisMode)
      ensures production == old(production) && consumption == old(consumption)
      ensures maxHardware == old(maxHardware) && clusters == old(clusters)
      ensures LimitsCalculated(SumInts(OrZero(inverterActivePower)), gridActivePower)
      ensures result.pvSum == SumInts(OrZero(inverterActivePower))
      ensures result.inverterLimits == activePowerLimits
      ensures result.evcsCount == SumInts(OrZero(clusterEvcsCount))
      ensures result.allowedPower == AllowedPower(consumption, result.evcsCount, result.pvSum)
      ensures result.clusterLimits == Distribution(result.allowedPower, clusters, OrZero(clusterActivePower))
    {
      var pvSum := SumOf(inverterActivePower);
      CalculatePvInverterLimits(pvSum, gridActivePower);
      var evcsCount := SumOf(clusterEvcsCount);
      var allowed := AllowedPower(consumption, evcsCount, pvSum);
      var perCluster := DistributePower(allowed, clusters, OrZero(clusterActivePower));
      result := CycleResult(pvSum, activePowerLimits, evcsCount, allowed, perCluster);
    }
  }

  lemma SameKeysDistinct(a: seq<(InverterId, int)>, b: seq<(InverterId, int)>)
    requires KeysDistinct(a)
    requires Keys(a) == Keys(b)
    ensures KeysDistinct(b)
  {
    forall i, j | 0 <= i < j < |b| ensures b[i].0 != b[j].0 {
      assert Keys(b)[i] == a[i].0 && Keys(b)[j] == a[j].0;
    }
  }

  /** The hardware map as `activate` fills it: one `put` per configured inverter. */
  function HardwareMapOf(inverterIds: seq<InverterId>, maxActivePower: seq<int>): seq<(InverterId, int)>
    requires |inverterIds| <= |maxActivePower|
    decreases |inverterIds|
  {
    if inverterIds == [] then []
    else
      var n := |inverterIds| - 1;
      Put(HardwareMapOf(inverterIds[..n], maxActivePower), inverterIds[n], maxActivePower[n])
  }

  /** The configuration loop of `activate`: every configured inverter has an
      entry, no other key appears, keys are distinct, and an inverter that is
      configured more than once keeps its last maximum. */
  method HardwareMap(inverterIds: seq<InverterId>, maxActivePower: seq<int>)
    returns (m: seq<(InverterId, int)>)
    requires |inverterIds| <= |maxActivePower|
    ensures m == HardwareMapOf(inverterIds, maxActivePower)
    ensures KeysDistinct(m)
    ensures forall i :: 0 <= i < |inverterIds| ==> Get(m, inverterIds[i]).Some?
    ensures forall i :: 0 <= i < |m| ==> m[i].0 in inverterIds
    ensures forall i :: 0 <= i < |inverterIds| && inverterIds[i] !in inverterIds[i + 1..] ==>
      Get(m, inverterIds[i]) == Some(maxActivePower[i])
  {
    m := [];
    var i := 0;
    while i < |inverterIds|
      invariant 0 <= i <= |inverterIds|
      invariant m == HardwareMapOf(inverterIds[..i], maxActivePower)
    {
      m := Put(m, inverterIds[i], maxActivePower[i]);
      assert inverterIds[..i + 1][..i] == inverterIds[..i];
      i := i + 1;
    }
    assert inverterIds[..i] == inverterIds;
    HardwareMapOfEntries(inverterIds, maxActivePower);
  }

  lemma {:induction false} HardwareMapOfEntries(inverterIds: seq<InverterId>, maxActivePower: seq<int>)
    requires |inverterIds| <= |maxActivePower|
    ensures var m := HardwareMapOf(inverterIds, maxActivePower);
      KeysDistinct(m) &&
      (forall i :: 0 <= i < |inverterIds| ==> Get(m, inverterIds[i]).Some?) &&
      (forall i :: 0 <= i < |m| ==> m[i].0 in inverterIds) &&
      (forall i :: 0 <= i < |inverterIds| && inverterIds[i] !in inverterIds[i + 1..] ==>
        Get(m, inverterIds[i]) == Some(maxActivePower[i]))
    decreases |inverterIds|
  {
    HardwareMapGet(inverterIds, maxActivePower);
    if inverterIds != [] {
      var n := |inverterIds| - 1;
      var ids := inverterIds[..n];
      var previous := HardwareMapOf(ids, maxActivePower);
      HardwareMapOfEntries(ids, maxActivePower);
      var m := Put(previous, inverterIds[n], maxActivePower[n]);
      PutKeepsKeysDistinct(previous, inverterIds[n], maxActivePower[n]);
      PutOnlyAddsKey(previous, inverterIds[n], maxActivePower[n]);
      forall i | 0 <= i < |m|
        ensures m[i].0 in inverterIds
      {
        if m[i].0 != inverterIds[n] {
          assert m[i] in previous;
        }
      }
    }
  }

  /** Every configured inverter can be looked up, and the last configuration
      of an inverter decides its maximum. */
  lemma {:induction false} HardwareMapGet(inverterIds: seq<InverterId>, maxActivePower: seq<int>)
    requires |inverterIds| <= |maxActivePower|
    ensures var m := HardwareMapOf(inverterIds, maxActivePower);
      (forall i :: 0 <= i < |inverterIds| ==> Get(m, inverterIds[i]).Some?) &&
      (forall i :: 0 <= i < |inverterIds| && inverterIds[i] !in inverterIds[i + 1..] ==>
        Get(m, inverterIds[i]) == Some(maxActivePower[i]))
    decreases |inverterIds|
  {
    if inverterIds != [] {
      var n := |inverterIds| - 1;
      var ids := inverterIds[..n];
      var previous := HardwareMapOf(ids, maxActivePower);
      HardwareMapGet(ids, maxActivePower);
      var m := Put(previous, inverterIds[n], maxActivePower[n]);
      forall i | 0 <= i < |inverterIds|
        ensures Get(m, inverterIds[i]).Some?
      {
        if i < n {
          assert ids[i] == inverterIds[i];
        }
      }
      forall i | 0 <= i < |inverterIds| && inverterIds[i] !in inverterIds[i + 1..]
        ensures Get(m, inverterIds[i]) == Some(maxActivePower[i])
      {
        if i < n {
          assert inverterIds[n] in inverterIds[i + 1..];
          assert ids[i] == inverterIds[i];
          assert ids[i + 1..] == inverterIds[i + 1..n];
        }
      }
    }
  }

  /** Undefined readings count as zero (`orElse(0)`). */
  function OrZero(values: seq<Option<int>>): (r: seq<int>)
    ensures |r| == |values|
    ensures forall i :: 0 <= i < |values| ==> r[i] == values[i].GetOr(0)
  {
    seq(|values|, i requires 0 <= i < |values| => values[i].GetOr(0))
  }

  lemma PutOnlyAddsKey(m: seq<(InverterId, int)>, k: InverterId, v: int)
    ensures forall j :: 0 <= j < |Put(m, k, v)| ==> Put(m, k, v)[j].0 == k || Put(m, k, v)[j] in m
  {
    if m != [] && m[0].0 != k {
      PutOnlyAddsKey(m[1..], k, v);
    }
  }

  /** The sum of the readings, undefined ones counting as zero. */
  method SumOf(values: seq<Option<int>>) returns (sum: int)
    ensures sum == SumInts(OrZero(values))
  {
    sum := 0;
    var i := 0;
    while i < |values|
      invariant 0 <= i <= |values|
      invariant sum == SumInts(OrZero(values[..i]))
    {
      assert OrZero(values[..i + 1]) == OrZero(values[..i]) + [values[i].GetOr(0)];
      SumIntsAppend(OrZero(values[..i]), values[i].GetOr(0));
      sum := sum + values[i].GetOr(0);
      i := i + 1;
    }
    assert values[..i] == values;
  }

  /** The sum of the hardware maxima. */
  method SumOfMaxima(maxHardware: seq<(InverterId, int)>) returns (sum: int)
    ensures sum == SumInts(Values(maxHardware))
  {
    sum := 0;
    var i := 0;
    while i < |maxHardware|
      invariant 0 <= i <= |maxHardware|
      invariant sum == SumInts(Values(maxHardware[..i]))
    {
      assert Values(maxHardware[..i + 1]) == Values(maxHardware[..i]) + [maxHardware[i].1];
      SumIntsAppend(Values(maxHardware[..i]), maxHardware[i].1);
      sum := sum + maxHardware[i].1;
      i := i + 1;
    }
    assert maxHardware[..i] == maxHardware;
  }

  /** The loop that rebuilds the limit map from the hardware map. */
  method ComputeLimits(maxHardware: seq<(InverterId, int)>, sum: int, hardwareMax: int)
    returns (limits: seq<(InverterId, int)>)
    ensures limits == Limits(maxHardware, sum, hardwareMax)
  {
    limits := [];
    var i := 0;
    while i < |maxHardware|
      invariant 0 <= i <= |maxHardware|
      invariant limits == Limits(maxHardware[..i], sum, hardwareMax)
    {
      limits := limits + [(maxHardware[i].0, Share(sum, maxHardware[i].1, hardwareMax))];
      i := i + 1;
    }
    assert maxHardware[..i] == maxHardware;
  }

  /** `distributePower` with its two loops over the cluster list. */
  method DistributePower(budget: int, clusters: seq<ClusterId>, powers: seq<int>)
    returns (perCluster: map<ClusterId, int>)
    requires |clusters| == |powers|
    ensures perCluster == Distribution(budget, clusters, powers)
  {
    if budget < 1 {
      perCluster := PutEach(clusters, budget);
    } else {
      var left;
      perCluster, left := GrantInOrder(budget, clusters, powers);
      if left > 0 {
        var extra := if |clusters| == 0 then 0 else FloorDiv(left, |clusters|);
        perCluster := AddToEach(perCluster, clusters, extra);
      }
    }
  }

  /** The loop that gives every cluster the same value. */
  method PutEach(clusters: seq<ClusterId>, value: int) returns (perCluster: map<ClusterId, int>)
    ensures perCluster == PutAll(map[], clusters, Fill(value, |clusters|))
  {
    perCluster := map[];
    var i := 0;
    while i < |clusters|
      invariant 0 <= i <= |clusters|
      invariant PutAll(perCluster, clusters[i..], Fill(value, |clusters| - i)) ==
        PutAll(map[], clusters, Fill(value, |clusters|))
    {
      PutFillStep(perCluster, clusters, value, i);
      perCluster := perCluster[clusters[i] := value];
      i := i + 1;
    }
  }

  /** One turn of the loop of `PutEach`: the next cluster is put. */
  lemma PutFillStep(m: map<ClusterId, int>, clusters: seq<ClusterId>, value: int, i: int)
    requires 0 <= i < |clusters|
    ensures PutAll(m, clusters[i..], Fill(value, |clusters| - i)) ==
      PutAll(m[clusters[i] := value], clusters[i + 1..], Fill(value, |clusters| - (i + 1)))
  {
    assert clusters[i..][1..] == clusters[i + 1..];
    assert Fill(value, |clusters| - i)[1..] == Fill(value, |clusters| - (i + 1));
    PutAllStep(m, clusters[i..], Fill(value, |clusters| - i));
  }

  /** The first loop: grants in list order, with the running amount left. */
  method GrantInOrder(budget: int, clusters: seq<ClusterId>, powers: seq<int>)
    returns (perCluster: map<ClusterId, int>, left: int)
    requires |clusters| == |powers|
    requires 1 <= budget
    ensures perCluster == PutAll(map[], clusters, FirstPass(budget, powers))
    ensures left == budget - SumInts(FirstPass(budget, powers))
  {
    perCluster := map[];
    left := budget;
    ghost var grants: seq<int> := [];
    var i := 0;
    while i < |clusters|
      invariant 0 <= i <= |clusters|
      invariant 0 <= left
      invariant grants + FirstPass(left, powers[i..]) == FirstPass(budget, powers)
      invariant left == budget - SumInts(grants)
      invariant PutAll(perCluster, clusters[i..], FirstPass(left, powers[i..])) ==
        PutAll(map[], clusters, FirstPass(budget, powers))
    {
      var granted := FitWithin(0, left, powers[i]);
      PutGrantStep(perCluster, clusters, powers, i, left);
      GrantStep(grants, left, powers, i);
      grants := grants + [granted];
      perCluster := perCluster[clusters[i] := granted];
      left := left - granted;
      i := i + 1;
    }
    assert grants == FirstPass(budget, powers);
  }

  /** One turn of the first loop on the grants: the next grant moves from the
      pass still to do to the grants made. */
  lemma GrantStep(grants: seq<int>, left: int, powers: seq<int>, i: int)
    requires 0 <= i < |powers| && 0 <= left
    ensures var g := FitWithin(0, left, powers[i]);
      0 <= left - g &&
      grants + FirstPass(left, powers[i..]) == (grants + [g]) + FirstPass(left - g, powers[i + 1..]) &&
      SumInts(grants + [g]) == SumInts(grants) + g
  {
    var g := FitWithin(0, left, powers[i]);
    assert powers[i..][1..] == powers[i + 1..];
    FirstPassUnfold(left, powers[i..]);
    AppendRegroup(grants, g, FirstPass(left - g, powers[i + 1..]));
    SumIntsAppend(grants, g);
  }

  lemma FirstPassUnfold(left: int, powers: seq<int>)
    requires 0 <= left && powers != []
    ensures var g := FitWithin(0, left, powers[0]);
      FirstPass(left, powers) == [g] + FirstPass(left - g, powers[1..])
  {
  }

  lemma AppendRegroup(s: seq<int>, x: int, t: seq<int>)
    ensures s + ([x] + t) == (s + [x]) + t
  {
  }

  /** One turn of the first loop on the map: the next grant is put. */
  lemma PutGrantStep(m: map<ClusterId, int>, clusters: seq<ClusterId>, powers: seq<int>, i: int, left: int)
    requires 0 <= i < |clusters| == |powers| && 0 <= left
    ensures var g := FitWithin(0, left, powers[i]);
      PutAll(m, clusters[i..], FirstPass(left, powers[i..])) ==
      PutAll(m[clusters[i] := g], clusters[i + 1..], FirstPass(left - g, powers[i + 1..]))
  {
    var g := FitWithin(0, left, powers[i]);
    assert powers[i..][1..] == powers[i + 1..];
    assert clusters[i..][1..] == clusters[i + 1..];
    PutAllStep(m, clusters[i..], FirstPass(left, powers[i..]));
  }

  /** The second loop: the leftover share is added for every cluster. */
  method AddToEach(perCluster: map<ClusterId, int>, clusters: seq<ClusterId>, extra: int)
    returns (result: map<ClusterId, int>)
    requires forall k :: 0 <= k < |clusters| ==> clusters[k] in perCluster
    ensures result == AddAll(perCluster, clusters, extra)
  {
    result := perCluster;
    var j := 0;
    while j < |clusters|
      invariant 0 <= j <= |clusters|
      invariant result.Keys == perCluster.Keys
      invariant AddAll(result, clusters[j..], extra) == AddAll(perCluster, clusters, extra)
    {
      assert clusters[j..][1..] == clusters[j + 1..];
      result := result[clusters[j] := result[clusters[j]] + extra];
      j := j + 1;
    }
  }
}
