/**
  The paragraph 14a controller for one PV inverter and one charging cluster. Every
  cycle it decodes the relay inputs, smooths the production target and the
  charging budget through a `WeightedMean` each, and merges its own values
  with what other controllers already asked the inverter and the cluster
  to do.
 */
module SingleInverterController {
  import opened Common
  import opened MeanWindow
  import CM = ControllerMean
  import P = ProductionLevels
  import C = ConsumptionLevels
  import R = RelaisMode
  import M = MultiInverterController

  /** The weights both means are built with, oldest sample first. */
  const MeanWeights: Weights := [15.0, 15.0, 15.0, 15.0, 20.0, 30.0, 40.0, 50.0, 60.0, 75.0]

  lemma MeanWeightsValid()
    ensures |MeanWeights| == 10 && ValidWeights(MeanWeights) && SumReals(MeanWeights) == 335.0
  {
    var w := MeanWeights;
    assert w[9..][1..] == [] && w[8..][1..] == w[9..] && w[7..][1..] == w[8..];
    assert w[6..][1..] == w[7..] && w[5..][1..] == w[6..] && w[4..][1..] == w[5..];
    assert w[3..][1..] == w[4..] && w[2..][1..] == w[3..] && w[1..][1..] == w[2..];
    assert w[1..] == w[1..][..];
  }

  /** The readings of the PV inverter; the reference itself may be missing. */
  datatype Inverter = Inverter(activePower: Option<int>, maxActivePower: Option<int>)

  /** The event topics the controller reacts to. */
  datatype Topic = CycleBeforeControllers | CycleAfterControllers | OtherTopic

  /** The inverter is there and reports both its active power and its maximum. */
  predicate Readable(inverter: Option<Inverter>) {
    inverter.Some? && inverter.value.activePower.Some? && inverter.value.maxActivePower.Some?
  }

  /** Every sample in the window is non-negative. */
  predicate WindowNonNegative(window: Option<seq<real>>) {
    window.Some? ==> forall i :: 0 <= i < |window.value| ==> 0.0 <= window.value[i]
  }

  /** `checkPvInverterLimit`: a pending write of another controller that is not
      negative is capped by the own limit, a missing or negative one gives way
      to the own limit. Nothing is written when both are missing. */
  function MergedPvLimit(pending: Option<int>, own: Option<int>): (r: Option<int>)
    ensures r.Some? <==> (pending.Some? && 0 <= pending.value) || own.Some?
    ensures pending.Some? && 0 <= pending.value ==> r.value <= pending.value
    ensures own.Some? ==> r.value <= own.value
    ensures (pending.None? || pending.value < 0) ==> r == own
    ensures pending.Some? && 0 <= pending.value <= IntMaxValue && own.None? ==> r == pending
    ensures pending.Some? && 0 <= pending.value && own.Some? ==> r == Some(Min(pending.value, own.value))
  {
    if pending.Some? && 0 <= pending.value then Some(Min(pending.value, own.GetOr(IntMaxValue)))
    else own
  }

  /** `checkEvcsMaximumAllowedPowerToDistribute`: a pending budget that is not
      negative is clamped into `[0, own]`; otherwise the own budget is written,
      or -1 ("no limit") when there is none. */
  function MergedEvcsBudget(pending: Option<int>, own: Option<int>): (r: int)
    ensures pending.Some? && 0 <= pending.value ==>
      0 <= r <= pending.value && (own.Some? && 0 <= own.value ==> r <= own.value)
    ensures pending.Some? && 0 <= pending.value && own.Some? && 0 <= own.value ==>
      r == Min(pending.value, own.value)
    ensures (pending.None? || pending.value < 0) ==> r == own.GetOr(-1)
  {
    if pending.Some? && 0 <= pending.value then FitWithin(0, own.GetOr(IntMaxValue), pending.value)
    else own.GetOr(-1)
  }

  class Controller {
    var relaisMode: R.RelaisMode
    var production: P.ProductionManagment
    var consumption: C.ConsumptionManagment
    /** the smoothed production limit of the PV inverter */
    var pvLimit: Option<int>
    /** the smoothed budget of the charging cluster */
    var evcsLimit: Option<int>
    const pvMean: CM.WeightedMean
    const evcsMean: CM.WeightedMean

    ghost predicate Valid()
      reads this, pvMean, evcsMean
    {
      pvMean != evcsMean &&
      pvMean.weights == MeanWeights && evcsMean.weights == MeanWeights &&
      pvMean.Valid() && evcsMean.Valid() &&
      WindowNonNegative(pvMean.window) && (pvLimit.Some? ==> 0 <= pvLimit.value)
    }

    constructor ()
      ensures Valid() && fresh(pvMean) && fresh(evcsMean)
      ensures production == P.Off && consumption == C.Off
      ensures pvLimit == None && evcsLimit == None
      ensures pvMean.window == None && evcsMean.window == None
    {
      relaisMode := R.NoRelais;
      production := P.Off;
      consumption := C.Off;
      pvLimit := None;
      evcsLimit := None;
      pvMean := new CM.WeightedMean(MeanWeights);
      evcsMean := new CM.WeightedMean(MeanWeights);
    }

    /** `activate`: takes the relay scheme, both levels start at `Off`. */
    method Activate(mode: R.RelaisMode)
      requires Valid()
      modifies this
      ensures Valid()
      ensures relaisMode == mode && production == P.Off && consumption == C.Off
      ensures pvLimit == old(pvLimit) && evcsLimit == old(evcsLimit)
    {
      relaisMode := mode;
      production := P.Off;
      consumption := C.Off;
    }

    /** `deactivate`: both levels back to `Off`. */
    method Deactivate()
      requires Valid()
      modifies this
      ensures Valid()
      ensures production == P.Off && consumption == C.Off
      ensures relaisMode == old(relaisMode) && pvLimit == old(pvLimit) && evcsLimit == old(evcsLimit)
    {
      production := P.Off;
      consumption := C.Off;
    }

    /** `mapRelaisInputsToManagementModes` */
    method MapRelaisInputs(relais: R.Relais)
      requires Valid()
      modifies this
      ensures Valid()
      ensures R.Levels(production, consumption) ==
        R.Dispatch(relaisMode, relais, R.Levels(old(production), old(consumption)))
      ensures relaisMode == old(relaisMode) && pvLimit == old(pvLimit) && evcsLimit == old(evcsLimit)
    {
      var levels := R.Dispatch(relaisMode, relais, R.Levels(production, consumption));
      production := levels.production;
      consumption := levels.consumption;
    }

    /** `calculatePvInverterActivePowerLimit`: without usable readings the mean
        is cleared and the limit kept; at full production the mean and the limit
        are cleared; otherwise the clamped target is smoothed into the limit. */
    method CalculatePvInverterActivePowerLimit(inverter: Option<Inverter>, gridActivePower: Option<int>)
      requires Valid()
      modifies this, pvMean
      ensures Valid()
      ensures PvLimitCalculated(inverter, gridActivePower)
      ensures relaisMode == old(relaisMode) && production == old(production) && consumption == old(consumption)
      ensures evcsLimit == old(evcsLimit)
    {
      MeanWeightsValid();
      if !Readable(inverter) {
        pvMean.Clear();
        return;
      }
      var maxActivePower := inverter.value.maxActivePower.value;
      if production == P.Full {
        pvMean.Clear();
        pvLimit := None;
        return;
      }
      var target := M.TargetSum(maxActivePower, production.Factor(), gridActivePower.GetOr(0),
                                inverter.value.activePower.value);
      var mean := pvMean.NextValue(target as real);
      AddedNonNegative(old(pvMean.window), target as real);
      MeanAtLeast(pvMean.window.value, MeanWeights, 0.0);
      pvLimit := Some(TruncateToInt(mean));
    }

    /** `checkPvInverterLimit`: what is written to the inverter's limit channel,
        given the value another controller already wrote there in this cycle. */
    method CheckPvInverterLimit(inverterPresent: bool, pending: Option<int>) returns (write: Option<int>)
      requires Valid()
      ensures write == if inverterPresent then MergedPvLimit(pending, pvLimit) else None
    {
      if !inverterPresent {
        return None;
      }
      if pending.Some? && 0 <= pending.value {
        write := Some(Min(pending.value, pvLimit.GetOr(IntMaxValue)));
      } else {
        write := pvLimit;
      }
    }

    /** `checkEvcsMaximumAllowedPowerToDistribute`: what is written to the
        cluster's budget channel; nothing without a cluster. */
    method CheckEvcsMaximumAllowedPower(clusterPresent: bool, pending: Option<int>) returns (write: Option<int>)
      requires Valid()
      ensures write == if clusterPresent then Some(MergedEvcsBudget(pending, evcsLimit)) else None
    {
      if !clusterPresent {
        return None;
      }
      if pending.Some? && 0 <= pending.value {
        write := Some(FitWithin(0, evcsLimit.GetOr(IntMaxValue), pending.value));
      } else {
        write := Some(evcsLimit.GetOr(-1));
      }
    }

    /** `calculateEvcsClusterMaximumAllowedPowerToDistribute`: at full consumption
        there is no budget (the mean keeps its samples); otherwise the budget of
        the consumption level is smoothed. */
    method CalculateEvcsMaximumAllowedPower(clusterPresent: bool, evcsCount: Option<int>, pvActivePower: Option<int>)
      requires Valid()
      modifies this, evcsMean
      ensures Valid()
      ensures EvcsLimitCalculated(clusterPresent, evcsCount, pvActivePower)
      ensures relaisMode == old(relaisMode) && production == old(production) && consumption == old(consumption)
      ensures pvLimit == old(pvLimit)
    {
      MeanWeightsValid();
      if !clusterPresent {
        return;
      }
      if consumption == C.Full {
        evcsLimit := None;
        return;
      }
      var budget := M.AllowedPower(consumption, evcsCount.GetOr(0), pvActivePower.GetOr(0));
      var mean := evcsMean.NextValue(budget as real);
      evcsLimit := Some(TruncateToInt(mean));
    }

    /** The mean and the limit after `calculatePvInverterActivePowerLimit`. */
    twostate predicate PvLimitCalculated(inverter: Option<Inverter>, gridActivePower: Option<int>)
      requires old(Valid())
      reads this, pvMean
    {
      (!Readable(inverter) ==> pvMean.window == None && pvLimit == old(pvLimit)) &&
      (Readable(inverter) && production == P.Full ==> pvMean.window == None && pvLimit == None) &&
      (Readable(inverter) && production != P.Full ==>
        var target := M.TargetSum(inverter.value.maxActivePower.value, production.Factor(),
                                  gridActivePower.GetOr(0), inverter.value.activePower.value);
        pvMean.window == Some(Added(old(pvMean.window), target as real, |MeanWeights|)) &&
        pvLimit == Some(TruncateToInt(WeightedAverage(pvMean.window.value, MeanWeights))))
    }

    /** The mean and the budget after `calculateEvcsClusterMaximumAllowedPowerToDistribute`. */
    twostate predicate EvcsLimitCalculated(clusterPresent: bool, evcsCount: Option<int>, pvActivePower: Option<int>)
      requires old(Valid())
      reads this, evcsMean
    {
      (!clusterPresent ==> evcsMean.window == old(evcsMean.window) && evcsLimit == old(evcsLimit)) &&
      (clusterPresent && consumption == C.Full ==>
        evcsMean.window == old(evcsMean.window) && evcsLimit == None) &&
      (clusterPresent && consumption != C.Full ==>
        var budget := M.AllowedPower(consumption, evcsCount.GetOr(0), pvActivePower.GetOr(0));
        evcsMean.window == Some(Added(old(evcsMean.window), budget as real, |MeanWeights|)) &&
        evcsLimit == Some(TruncateToInt(WeightedAverage(evcsMean.window.value, MeanWeights))))
    }

    /** `run`: the production limit, the merged write to the inverter, then the
        charging budget. Returns what is written to the inverter, and whether
        the budget step dereferenced a missing inverter (`aborted`): that
        happens with a cluster below full consumption, and leaves the budget
        and its mean as they were. */
    method Run(inverter: Option<Inverter>, gridActivePower: Option<int>, pendingPvLimit: Option<int>,
               clusterPresent: bool, evcsCount: Option<int>)
      returns (pvWrite: Option<int>, aborted: bool)
      requires Valid()
      modifies this, pvMean, evcsMean
      ensures Valid()
      ensures PvLimitCalculated(inverter, gridActivePower)
      ensures pvWrite == if inverter.Some? then MergedPvLimit(pendingPvLimit, pvLimit) else None
      ensures pvWrite.Some? && pendingPvLimit.Some? && 0 <= pendingPvLimit.value ==>
        0 <= pvWrite.value <= pendingPvLimit.value
      ensures aborted <==> inverter.None? && clusterPresent && consumption != C.Full
      ensures aborted ==> evcsMean.window == old(evcsMean.window) && evcsLimit == old(evcsLimit)
      ensures !aborted ==>
        EvcsLimitCalculated(clusterPresent, evcsCount, if inverter.Some? then inverter.value.activePower else None)
      ensures relaisMode == old(relaisMode) && production == old(production) && consumption == old(consumption)
    {
      CalculatePvInverterActivePowerLimit(inverter, gridActivePower);
      pvWrite := CheckPvInverterLimit(inverter.Some?, pendingPvLimit);
      aborted := inverter.None? && clusterPresent && consumption != C.Full;
      if aborted {
        return;
      }
      var pvActivePower := if inverter.Some? then inverter.value.activePower else None;
      CalculateEvcsMaximumAllowedPower(clusterPresent, evcsCount, pvActivePower);
    }

    /** `handleEvent`: nothing while disabled; before the controllers run the
        relays are decoded, after them the budget is written to the cluster. */
    method HandleEvent(enabled: bool, topic: Topic, relais: R.Relais, clusterPresent: bool,
                       pendingBudget: Option<int>)
      returns (budgetWrite: Option<int>)
      requires Valid()
      modifies this
      ensures Valid()
      ensures enabled && topic == CycleBeforeControllers ==>
        R.Levels(production, consumption) ==
        R.Dispatch(relaisMode, relais, R.Levels(old(production), old(consumption)))
      ensures !(enabled && topic == CycleBeforeControllers) ==>
        production == old(production) && consumption == old(consumption)
      ensures budgetWrite ==
        if enabled && topic == CycleAfterControllers && clusterPresent
        then Some(MergedEvcsBudget(pendingBudget, evcsLimit)) else None
      ensures relaisMode == old(relaisMode) && pvLimit == old(pvLimit) && evcsLimit == old(evcsLimit)
    {
      budgetWrite := None;
      if !enabled {
        return;
      }
      match topic {
        case CycleBeforeControllers =>
          MapRelaisInputs(relais);
        case CycleAfterControllers =>
          budgetWrite := CheckEvcsMaximumAllowedPower(clusterPresent, pendingBudget);
        case OtherTopic =>
      }
    }
  }

  lemma AddedNonNegative(window: Option<seq<real>>, value: real)
    requires window.Some? ==> |window.value| == |MeanWeights|
    requires WindowNonNegative(window) && 0.0 <= value
    ensures WindowNonNegative(Some(Added(window, value, |MeanWeights|)))
  {
    var w := Added(window, value, |MeanWeights|);
    forall i | 0 <= i < |w|
      ensures 0.0 <= w[i]
    {
      if i < |w| - 1 && window.Some? {
        assert w[i] == w[..|w| - 1][i] == window.value[i + 1];
      }
    }
  }

  /** As long as the inverter's maximum stays the same, the smoothed limit never
      leaves `[0, maxActivePower]`: every sample is a clamped target. */
  lemma SmoothedLimitWithinHardware(window: Option<seq<real>>, target: int, maxActivePower: int)
    requires window.Some? ==> |window.value| == |MeanWeights|
    requires WindowWithin(window, 0.0, maxActivePower as real)
    requires 0 <= target <= maxActivePower
    ensures var w := Added(window, target as real, |MeanWeights|);
      WindowWithin(Some(w), 0.0, maxActivePower as real) &&
      0 <= TruncateToInt(WeightedAverage(w, MeanWeights)) <= maxActivePower
  {
    var w := Added(window, target as real, |MeanWeights|);
    AddedWithin(window, target as real, |MeanWeights|, 0.0, maxActivePower as real);
    TruncatedMeanWithin(w, maxActivePower);
  }

  lemma TruncatedMeanWithin(w: seq<real>, high: int)
    requires |w| == |MeanWeights| && WindowWithin(Some(w), 0.0, high as real)
    ensures 0 <= TruncateToInt(WeightedAverage(w, MeanWeights)) <= high
  {
    MeanWeightsValid();
    MeanWithinSamples(w, MeanWeights, 0.0, high as real);
  }

  /** Ten cycles with the same input leave nothing else in the window: the
      smoothed value is then exactly that input. */
  lemma SteadyInputIsReached(window: Option<seq<real>>, value: int, cycles: int)
    requires window.Some? ==> |window.value| == |MeanWeights|
    requires |MeanWeights| <= cycles
    ensures var w := AddedTimes(window, value as real, cycles, |MeanWeights|);
      w == Some(Fill(value as real, |MeanWeights|)) &&
      TruncateToInt(WeightedAverage(w.value, MeanWeights)) == value
  {
    MeanWeightsValid();
    WindowForgetsHistory(window, value as real, cycles, |MeanWeights|);
    MeanOfConstant(value as real, MeanWeights);
  }

  /** The production scenario of the controller's own test: 20 kW inverter,
      production reduced to 60 %, no grid reading. With 1 kW produced the
      first limit is 13000; when production rises to 7.5 kW the target is
      19500 and the smoothed limit 14455; thirty cycles later it is 19500. */
  lemma ProductionScenario()
    ensures M.TargetSum(20000, P.ProductionManagment.Reduced60.Factor(), 0, 1000) == 13000
    ensures M.TargetSum(20000, P.ProductionManagment.Reduced60.Factor(), 0, 7500) == 19500
    ensures TruncateToInt(WeightedAverage(Added(None, 13000.0, 10), MeanWeights)) == 13000
    ensures var second := Added(Some(Added(None, 13000.0, 10)), 19500.0, 10);
      TruncateToInt(WeightedAverage(second, MeanWeights)) == 14455 &&
      TruncateToInt(WeightedAverage(AddedTimes(Some(second), 19500.0, 30, 10).value, MeanWeights)) == 19500
  {
    var first := Added(None, 13000.0, 10);
    SteadyInputIsReached(None, 13000, 10);
    var second := Added(Some(first), 19500.0, 10);
    SecondLimit(first, second);
    SteadyInputIsReached(Some(second), 19500, 30);
  }

  lemma SecondLimit(first: seq<real>, second: seq<real>)
    requires first == Added(None, 13000.0, 10) && second == Added(Some(first), 19500.0, 10)
    ensures TruncateToInt(WeightedAverage(second, MeanWeights)) == 14455
  {
    assert first == Fill(13000.0, 10);
    assert second == [13000.0, 13000.0, 13000.0, 13000.0, 13000.0, 13000.0, 13000.0, 13000.0, 13000.0, 19500.0];
    DotOfSecond(second);
    MeanWeightsValid();
    var q := WeightedAverage(second, MeanWeights);
    assert q == 4842500.0 / 335.0;
    assert 14455.0 <= q < 14456.0;
  }

  lemma DotOfSecond(second: seq<real>)
    requires second == [13000.0, 13000.0, 13000.0, 13000.0, 13000.0, 13000.0, 13000.0, 13000.0, 13000.0, 19500.0]
    ensures Dot(second, MeanWeights) == 4842500.0
  {
    var w := MeanWeights;
    MeanWeightsValid();
    DotSplitLast(second, w);
    assert second[..9] == Fill(13000.0, |w[..9]|);
    DotOfConstant(13000.0, w[..9]);
    SumRealsSplitLast(w);
    assert SumReals(w[..9]) == 260.0;
  }
}
