/**
  The SolarEdge SE9k inverter driver (the `edge/pvinverter-solaredge-se9k`
  version): turns the active power limit requested by the controllers into
  the percentage of the hardware maximum written to the inverter's dynamic
  power control, smoothed by a biased weighted mean and rate-limited by
  `DiffTimeApply`, together with the configured reactive power and cos φ
  references. Modbus reads and writes are parameters: the readings of this
  cycle are passed in, the writes are the values the `DiffTimeApply`
  instances accept.
 */
module SolarEdgeSe9k {
  import opened Common
  import opened MeanWindow
  import SEM = SolarEdgeMean
  import D = DiffTimeApply

  /** The weights of the limit mean, oldest sample first. */
  const LimitWeights: Weights := [15.0, 15.0, 15.0, 15.0, 20.0, 30.0, 40.0, 50.0, 75.0, 100.0]

  /** The event topics the driver reacts to. */
  datatype Topic = CycleExecuteWrite | CycleAfterControllers | OtherTopic

  /** Which of the three writes throws in this cycle, if it is attempted. */
  datatype WriteFailures = WriteFailures(activePowerLimit: bool, reactivePowerLimit: bool, cosPhiRef: bool)

  /** `activePowerLimit * 100 / epcMaxActivePower`, clamped to `[1, 100]`. A zero
      maximum divides to an infinity, which the clamp turns into a bound; 0 / 0
      is not a number and is excluded. */
  function Percentage(limit: int, max: real): (p: real)
    requires !(limit == 0 && max == 0.0)
    ensures 1.0 <= p <= 100.0
    ensures 0.0 < max && max <= limit as real ==> p == 100.0
    ensures 0.0 < max && limit <= 0 ==> p == 1.0
    ensures 0.0 < max && 1.0 <= limit as real * 100.0 / max <= 100.0 ==> p == limit as real * 100.0 / max
    ensures max == 0.0 ==> (p == 100.0 <==> 0 < limit)
  {
    if max == 0.0 then (if 0 < limit then 100.0 else 1.0)
    else FitWithinReal(1.0, 100.0, limit as real * 100.0 / max)
  }

  /** The percentage before the mean: 100 without a requested limit; a missing
      hardware maximum is replaced by the limit itself, which also gives 100. */
  function LimitPercentage(pending: Option<int>, epcMaxActivePower: Option<real>): (p: real)
    requires pending.Some? ==> !(pending.value == 0 && epcMaxActivePower.GetOr(0.0) == 0.0)
    ensures 1.0 <= p <= 100.0
    ensures pending.None? ==> p == 100.0
    ensures pending.Some? && epcMaxActivePower.None? ==> p == 100.0
    ensures pending.Some? && epcMaxActivePower.Some? ==>
      p == Percentage(pending.value, epcMaxActivePower.value)
  {
    if pending.None? then 100.0
    else
      var max := epcMaxActivePower.GetOr(pending.value as real);
      assert epcMaxActivePower.None? ==> max != 0.0 && pending.value as real * 100.0 / max == 100.0;
      Percentage(pending.value, max)
  }

  /** The mean window after `applyEpcDynamicActivePowerLimit` and the value it
      offers to the inverter: a non-negative override, clamped, leaves the
      mean alone; otherwise the percentage enters the mean (three times when
      it falls, once when it rises) and the new mean is offered. */
  function OfferedActivePowerLimit(overrideActivePower: Option<real>, window: Option<seq<real>>,
                                   pending: Option<int>, epcMaxActivePower: Option<real>)
    : (r: (Option<seq<real>>, real))
    requires window.Some? ==> |window.value| == |LimitWeights|
    requires LimitComputable(overrideActivePower, pending, epcMaxActivePower)
    ensures overrideActivePower.GetOr(-1.0) >= 0.0 ==> r.0 == window && 0.0 <= r.1 <= 100.0
    ensures r.0.Some? ==> |r.0.value| == |LimitWeights|
    ensures overrideActivePower.GetOr(-1.0) < 0.0 ==> r.0.Some? && r.1 == Mean(r.0, LimitWeights)
  {
    if overrideActivePower.GetOr(-1.0) >= 0.0 then (window, FitWithinReal(0.0, 100.0, overrideActivePower.value))
    else
      var p := LimitPercentage(pending, epcMaxActivePower);
      var w := AddedTimes(window, p, SEM.BiasedCount(Mean(window, LimitWeights), p, 3, 1), |LimitWeights|);
      (w, Mean(w, LimitWeights))
  }

  /** A 0 limit needs a hardware maximum other than 0 (see `Percentage`). */
  predicate Divisible(pending: Option<int>, epcMaxActivePower: Option<real>) {
    pending.Some? ==> !(pending.value == 0 && epcMaxActivePower.GetOr(0.0) == 0.0)
  }

  /** The limit is computed, and so divided, only without an active override. */
  predicate LimitComputable(overrideActivePower: Option<real>, pending: Option<int>, epcMaxActivePower: Option<real>) {
    overrideActivePower.GetOr(-1.0) < 0.0 ==> Divisible(pending, epcMaxActivePower)
  }

  class Inverter {
    const readOnly: bool
    const reactivePowerRef: real
    const cosPhiRef: real
    /** the value of the override channel, as this cycle's process image shows it */
    var overrideActivePower: Option<real>
    /** the next value of the override channel: set by a pending write after
        the controllers, it becomes the value at the next process-image switch */
    var nextOverrideActivePower: Option<real>
    var pvLimitFailed: bool
    var readOnlyModePvLimitFailed: bool
    const limitMean: SEM.WeightedMean
    const activePowerLimitApply: D.DiffTimeApply
    const reactivePowerLimitApply: D.DiffTimeApply
    const cosPhiRefApply: D.DiffTimeApply

    /** The mean only ever holds clamped percentages, and the inverter only
        ever receives percentages in `[0, 100]` and a cos φ in `[-1, 1]`. */
    ghost predicate Valid()
      reads this, limitMean, activePowerLimitApply, reactivePowerLimitApply, cosPhiRefApply
    {
      activePowerLimitApply != reactivePowerLimitApply &&
      activePowerLimitApply != cosPhiRefApply &&
      reactivePowerLimitApply != cosPhiRefApply &&
      limitMean.weights == LimitWeights && limitMean.Valid() &&
      WindowWithin(limitMean.window, 1.0, 100.0) &&
      activePowerLimitApply.compareDiff == 0.5 && activePowerLimitApply.Valid() &&
      reactivePowerLimitApply.compareDiff == 0.5 && reactivePowerLimitApply.Valid() &&
      cosPhiRefApply.compareDiff == 0.01 && cosPhiRefApply.Valid() &&
      D.AllWithin(activePowerLimitApply.accepted, 0.0, 100.0) &&
      D.AllWithin(reactivePowerLimitApply.accepted, 0.0, 100.0) &&
      D.AllWithin(cosPhiRefApply.accepted, -1.0, 1.0)
    }

    /** `activate` with the configuration's read-only flag and references. */
    constructor (readOnly: bool, reactivePowerRef: real, cosPhiRef: real)
      ensures Valid()
      ensures this.readOnly == readOnly && this.reactivePowerRef == reactivePowerRef && this.cosPhiRef == cosPhiRef
      ensures overrideActivePower == None && nextOverrideActivePower == None && limitMean.window == None
      ensures activePowerLimitApply.accepted == [] && reactivePowerLimitApply.accepted == [] &&
        cosPhiRefApply.accepted == []
    {
      this.readOnly := readOnly;
      this.reactivePowerRef := reactivePowerRef;
      this.cosPhiRef := cosPhiRef;
      overrideActivePower := None;
      nextOverrideActivePower := None;
      pvLimitFailed := false;
      readOnlyModePvLimitFailed := false;
      limitMean := new SEM.WeightedMean(LimitWeights);
      activePowerLimitApply := new D.DiffTimeApply(0.5);
      reactivePowerLimitApply := new D.DiffTimeApply(0.5);
      cosPhiRefApply := new D.DiffTimeApply(0.01);
    }

    /** `handleEvent` */
    method HandleEvent(enabled: bool, initialized: bool, topic: Topic, pendingLimit: Option<int>,
                       pendingOverride: Option<real>, epcMaxActivePower: Option<real>,
                       epcCommandTimeout: Option<int>, now: int, failures: WriteFailures)
      requires Valid()
      // only an execute-write that applies the requested limit divides by the maximum
      requires enabled && initialized && topic == CycleExecuteWrite && !readOnly ==>
        LimitComputable(overrideActivePower, pendingLimit, epcMaxActivePower)
      modifies this, limitMean, activePowerLimitApply, reactivePowerLimitApply, cosPhiRefApply
      ensures Valid()
      // no event changes the override this cycle's process image shows
      ensures overrideActivePower == old(overrideActivePower)
      ensures !(enabled && initialized) ==>
        !pvLimitFailed && !readOnlyModePvLimitFailed &&
        limitMean.window == old(limitMean.window) &&
        activePowerLimitApply.accepted == old(activePowerLimitApply.accepted)
      ensures enabled && initialized && topic == CycleAfterControllers ==>
        nextOverrideActivePower ==
          (if pendingOverride.Some? then pendingOverride else old(nextOverrideActivePower)) &&
        pvLimitFailed == old(pvLimitFailed) && readOnlyModePvLimitFailed == old(readOnlyModePvLimitFailed)
      ensures !(enabled && initialized && topic == CycleAfterControllers) ==>
        nextOverrideActivePower == old(nextOverrideActivePower)
      ensures enabled && initialized && topic == CycleExecuteWrite && readOnly ==>
        readOnlyModePvLimitFailed == pendingLimit.Some? && pvLimitFailed == old(pvLimitFailed) &&
        activePowerLimitApply.accepted == old(activePowerLimitApply.accepted)
      ensures enabled && initialized && topic == CycleExecuteWrite && !readOnly ==>
        !readOnlyModePvLimitFailed && overrideActivePower == old(overrideActivePower) &&
        LimitsApplied(pendingLimit, epcMaxActivePower, epcCommandTimeout, now, failures, pvLimitFailed)
      ensures !(enabled && initialized && topic == CycleExecuteWrite && !readOnly) ==>
        limitMean.window == old(limitMean.window) &&
        activePowerLimitApply.StateOf() == old(activePowerLimitApply.StateOf()) &&
        reactivePowerLimitApply.StateOf() == old(reactivePowerLimitApply.StateOf()) &&
        cosPhiRefApply.StateOf() == old(cosPhiRefApply.StateOf())
    {
      if !(enabled && initialized) {
        pvLimitFailed := false;
        readOnlyModePvLimitFailed := false;
        return;
      }
      match topic {
        case CycleExecuteWrite =>
          ProcessTopicCycleExecuteWrite(pendingLimit, epcMaxActivePower, epcCommandTimeout, now, failures);
        case CycleAfterControllers =>
          ProcessTopicCycleAfterControllers(pendingOverride);
        case OtherTopic =>
      }
    }

    /** `processTopicCycleAfterControllers`: a pending override write becomes the
        next value of the override channel (`_setOverrideActivePower` is a
        `setNextValue`); the value this cycle reads stays as it was. */
    method ProcessTopicCycleAfterControllers(pendingOverride: Option<real>)
      requires Valid()
      modifies this
      ensures Valid()
      ensures nextOverrideActivePower ==
        if pendingOverride.Some? then pendingOverride else old(nextOverrideActivePower)
      ensures overrideActivePower == old(overrideActivePower)
      ensures pvLimitFailed == old(pvLimitFailed) && readOnlyModePvLimitFailed == old(readOnlyModePvLimitFailed)
    {
      if pendingOverride.Some? {
        nextOverrideActivePower := pendingOverride;
      }
    }

    /** The process-image switch the framework performs at the start of every
        cycle, before any event reaches the driver: the override channel's next
        value becomes its value, and the next value is kept. */
    method SwitchProcessImage()
      requires Valid()
      modifies this
      ensures Valid()
      ensures overrideActivePower == old(nextOverrideActivePower)
      ensures nextOverrideActivePower == old(nextOverrideActivePower)
      ensures pvLimitFailed == old(pvLimitFailed) && readOnlyModePvLimitFailed == old(readOnlyModePvLimitFailed)
    {
      overrideActivePower := nextOverrideActivePower;
    }

    /** `processTopicCycleExecuteWrite`: a read-only inverter only reports
        whether a limit was requested; otherwise the limits are applied and
        `PvLimitFailed` says whether that threw. */
    method ProcessTopicCycleExecuteWrite(pendingLimit: Option<int>, epcMaxActivePower: Option<real>,
                                         epcCommandTimeout: Option<int>, now: int, failures: WriteFailures)
      requires Valid()
      requires !readOnly ==> LimitComputable(overrideActivePower, pendingLimit, epcMaxActivePower)
      modifies this, limitMean, activePowerLimitApply, reactivePowerLimitApply, cosPhiRefApply
      ensures Valid()
      ensures overrideActivePower == old(overrideActivePower)
      ensures nextOverrideActivePower == old(nextOverrideActivePower)
      ensures readOnly ==>
        readOnlyModePvLimitFailed == pendingLimit.Some? && pvLimitFailed == old(pvLimitFailed) &&
        limitMean.window == old(limitMean.window) &&
        activePowerLimitApply.StateOf() == old(activePowerLimitApply.StateOf()) &&
        reactivePowerLimitApply.StateOf() == old(reactivePowerLimitApply.StateOf()) &&
        cosPhiRefApply.StateOf() == old(cosPhiRefApply.StateOf())
      ensures !readOnly ==> !readOnlyModePvLimitFailed
      ensures !readOnly ==>
        LimitsApplied(pendingLimit, epcMaxActivePower, epcCommandTimeout, now, failures, pvLimitFailed)
      ensures !readOnly && !failures.activePowerLimit && !failures.reactivePowerLimit && !failures.cosPhiRef ==>
        !pvLimitFailed
    {
      if readOnly {
        readOnlyModePvLimitFailed := pendingLimit.Some?;
        return;
      }
      readOnlyModePvLimitFailed := false;
      var failed := ApplyEpcDynamicLimits(pendingLimit, epcMaxActivePower, epcCommandTimeout, now, failures);
      pvLimitFailed := failed;
    }

    /** The states after `applyEpcDynamicLimits` and whether it threw: the
        active power limit is offered first, the reactive power limit only
        when that did not throw, the cos φ only when neither did. */
    twostate predicate LimitsApplied(pendingLimit: Option<int>, epcMaxActivePower: Option<real>,
                                     epcCommandTimeout: Option<int>, now: int, failures: WriteFailures, failed: bool)
      requires old(Valid())
      requires LimitComputable(old(overrideActivePower), pendingLimit, epcMaxActivePower)
      reads limitMean, activePowerLimitApply, reactivePowerLimitApply, cosPhiRefApply
    {
      var offered := OfferedActivePowerLimit(old(overrideActivePower), old(limitMean.window), pendingLimit,
                                             epcMaxActivePower);
      var active := D.Step(old(activePowerLimitApply.StateOf()), 0.5, epcCommandTimeout, offered.1, now,
                           failures.activePowerLimit);
      var reactive := D.Step(old(reactivePowerLimitApply.StateOf()), 0.5, epcCommandTimeout,
                             FitWithinReal(0.0, 100.0, reactivePowerRef), now, failures.reactivePowerLimit);
      var cosPhi := D.Step(old(cosPhiRefApply.StateOf()), 0.01, epcCommandTimeout,
                           FitWithinReal(-1.0, 1.0, cosPhiRef), now, failures.cosPhiRef);
      limitMean.window == offered.0 &&
      activePowerLimitApply.StateOf() == active.0 &&
      reactivePowerLimitApply.StateOf() ==
        (if active.1 == D.Rejected then old(reactivePowerLimitApply.StateOf()) else reactive.0) &&
      cosPhiRefApply.StateOf() ==
        (if active.1 == D.Rejected || reactive.1 == D.Rejected then old(cosPhiRefApply.StateOf()) else cosPhi.0) &&
      (failed <==> active.1 == D.Rejected || reactive.1 == D.Rejected || cosPhi.1 == D.Rejected)
    }

    /** `applyEpcDynamicLimits`: active power limit, reactive power limit and
        cos φ in this order; a write that throws ends the sequence. */
    method ApplyEpcDynamicLimits(pendingLimit: Option<int>, epcMaxActivePower: Option<real>,
                                 epcCommandTimeout: Option<int>, now: int, failures: WriteFailures)
      returns (failed: bool)
      requires Valid()
      requires LimitComputable(overrideActivePower, pendingLimit, epcMaxActivePower)
      modifies limitMean, activePowerLimitApply, reactivePowerLimitApply, cosPhiRefApply
      ensures Valid()
      ensures LimitsApplied(pendingLimit, epcMaxActivePower, epcCommandTimeout, now, failures, failed)
      ensures !failures.activePowerLimit && !failures.reactivePowerLimit && !failures.cosPhiRef ==> !failed
      ensures failed ==> failures.activePowerLimit || failures.reactivePowerLimit || failures.cosPhiRef
    {
      var outcome := ApplyEpcDynamicActivePowerLimit(pendingLimit, epcMaxActivePower, epcCommandTimeout, now,
                                                     failures.activePowerLimit);
      if outcome == D.Rejected {
        return true;
      }
      outcome := ApplyEpcDynamicReactivePowerLimit(epcCommandTimeout, now, failures.reactivePowerLimit);
      if outcome == D.Rejected {
        return true;
      }
      outcome := ApplyEpcDynamicCosPhiRef(epcCommandTimeout, now, failures.cosPhiRef);
      failed := outcome == D.Rejected;
    }

    /** `applyEpcDynamicActivePowerLimit`: a non-negative override, clamped to
        `[0, 100]`, bypasses the requested limit and the mean; otherwise the
        clamped percentage enters the mean biased towards falling values and
        the mean is offered to the inverter. */
    method ApplyEpcDynamicActivePowerLimit(pendingLimit: Option<int>, epcMaxActivePower: Option<real>,
                                           epcCommandTimeout: Option<int>, now: int, writeThrows: bool)
      returns (outcome: D.Outcome)
      requires Valid()
      requires LimitComputable(overrideActivePower, pendingLimit, epcMaxActivePower)
      modifies limitMean, activePowerLimitApply
      ensures Valid()
      ensures var offered := OfferedActivePowerLimit(overrideActivePower, old(limitMean.window), pendingLimit,
                                                     epcMaxActivePower);
        limitMean.window == offered.0 &&
        (activePowerLimitApply.StateOf(), outcome) ==
        D.Step(old(activePowerLimitApply.StateOf()), 0.5, epcCommandTimeout, offered.1, now, writeThrows)
      ensures overrideActivePower.GetOr(-1.0) >= 0.0 ==>
        limitMean.window == old(limitMean.window) &&
        (activePowerLimitApply.StateOf(), outcome) ==
        D.Step(old(activePowerLimitApply.StateOf()), 0.5, epcCommandTimeout,
               FitWithinReal(0.0, 100.0, overrideActivePower.value), now, writeThrows)
      ensures overrideActivePower.GetOr(-1.0) < 0.0 ==>
        var p := LimitPercentage(pendingLimit, epcMaxActivePower);
        limitMean.window == AddedTimes(old(limitMean.window), p,
          SEM.BiasedCount(Mean(old(limitMean.window), LimitWeights), p, 3, 1), |LimitWeights|) &&
        (activePowerLimitApply.StateOf(), outcome) ==
        D.Step(old(activePowerLimitApply.StateOf()), 0.5, epcCommandTimeout,
               Mean(limitMean.window, LimitWeights), now, writeThrows)
    {
      var overrideValue := overrideActivePower.GetOr(-1.0);
      if overrideValue >= 0.0 {
        var clamped := FitWithinReal(0.0, 100.0, overrideValue);
        D.StepKeepsAcceptedWithin(activePowerLimitApply.StateOf(), 0.5, epcCommandTimeout, clamped, now,
                                  writeThrows, 0.0, 100.0);
        outcome := activePowerLimitApply.NextValue(epcCommandTimeout, clamped, now, writeThrows);
        return;
      }
      var p := LimitPercentage(pendingLimit, epcMaxActivePower);
      var mean := SmoothLimit(limitMean, p);
      D.StepKeepsAcceptedWithin(activePowerLimitApply.StateOf(), 0.5, epcCommandTimeout, mean, now,
                                writeThrows, 0.0, 100.0);
      outcome := activePowerLimitApply.NextValue(epcCommandTimeout, mean, now, writeThrows);
    }

    /** The mean step of `applyEpcDynamicActivePowerLimit`: the percentage
        enters the mean, three times when it falls and once when it rises, and
        the new mean is returned. */
    static method SmoothLimit(limitMean: SEM.WeightedMean, p: real) returns (mean: real)
      requires limitMean.weights == LimitWeights && limitMean.Valid()
      requires WindowWithin(limitMean.window, 1.0, 100.0) && 1.0 <= p <= 100.0
      modifies limitMean
      ensures limitMean.weights == LimitWeights && limitMean.Valid()
      ensures limitMean.window == AddedTimes(old(limitMean.window), p,
        SEM.BiasedCount(Mean(old(limitMean.window), LimitWeights), p, 3, 1), |LimitWeights|)
      ensures WindowWithin(limitMean.window, 1.0, 100.0)
      ensures mean == Mean(limitMean.window, LimitWeights) && 1.0 <= mean <= 100.0
    {
      ghost var before := limitMean.window;
      limitMean.AddValueBiased(p, 3, 1);
      AddedTimesWithin(before, p, SEM.BiasedCount(Mean(before, LimitWeights), p, 3, 1), |LimitWeights|, 1.0, 100.0);
      mean := limitMean.GetMean();
      MeanWithinSamples(limitMean.window.value, LimitWeights, 1.0, 100.0);
    }

    /** `applyEpcDynamicReactivePowerLimit`: the configured reference, clamped to `[0, 100]`. */
    method ApplyEpcDynamicReactivePowerLimit(epcCommandTimeout: Option<int>, now: int, writeThrows: bool)
      returns (outcome: D.Outcome)
      requires Valid()
      modifies reactivePowerLimitApply
      ensures Valid()
      ensures (reactivePowerLimitApply.StateOf(), outcome) ==
        D.Step(old(reactivePowerLimitApply.StateOf()), 0.5, epcCommandTimeout,
               FitWithinReal(0.0, 100.0, reactivePowerRef), now, writeThrows)
    {
      var value := FitWithinReal(0.0, 100.0, reactivePowerRef);
      D.StepKeepsAcceptedWithin(reactivePowerLimitApply.StateOf(), 0.5, epcCommandTimeout, value, now,
                                writeThrows, 0.0, 100.0);
      outcome := reactivePowerLimitApply.NextValue(epcCommandTimeout, value, now, writeThrows);
    }

    /** `applyEpcDynamicCosPhiRef`: the configured cos φ, clamped to `[-1, 1]`. */
    method ApplyEpcDynamicCosPhiRef(epcCommandTimeout: Option<int>, now: int, writeThrows: bool)
      returns (outcome: D.Outcome)
      requires Valid()
      modifies cosPhiRefApply
      ensures Valid()
      ensures (cosPhiRefApply.StateOf(), outcome) ==
        D.Step(old(cosPhiRefApply.StateOf()), 0.01, epcCommandTimeout,
               FitWithinReal(-1.0, 1.0, cosPhiRef), now, writeThrows)
    {
      var value := FitWithinReal(-1.0, 1.0, cosPhiRef);
      D.StepKeepsAcceptedWithin(cosPhiRefApply.StateOf(), 0.01, epcCommandTimeout, value, now,
                                writeThrows, -1.0, 1.0);
      outcome := cosPhiRefApply.NextValue(epcCommandTimeout, value, now, writeThrows);
    }
  }

  /** A percentage below 90 % of the mean is added three times: the three
      newest samples are all the new value, so the mean falls fast. */
  lemma FallingLimitCountsThreeTimes(window: Option<seq<real>>, p: real)
    requires window.Some? ==> |window.value| == |LimitWeights|
    requires WindowWithin(window, 1.0, 100.0)
    requires window.Some? && Mean(window, LimitWeights) * 0.9 > p
    ensures var w := AddedTimes(window, p, SEM.BiasedCount(Mean(window, LimitWeights), p, 3, 1), |LimitWeights|);
      w.Some? && w.value[7] == p && w.value[8] == p && w.value[9] == p &&
      w.value[..7] == window.value[3..]
  {
    MeanWithinSamples(window.value, LimitWeights, 1.0, 100.0);
    AddedTimesShifts(window.value, p, 3, |LimitWeights|);
  }

  /** A percentage above 110 % of the mean is added once only: the mean rises slowly. */
  lemma RisingLimitCountsOnce(window: Option<seq<real>>, p: real)
    requires window.Some? ==> |window.value| == |LimitWeights|
    requires Mean(window, LimitWeights) * 1.1 < p
    ensures AddedTimes(window, p, SEM.BiasedCount(Mean(window, LimitWeights), p, 3, 1), |LimitWeights|)
      == Some(Added(window, p, |LimitWeights|))
  {
  }
}

/**
  The SolarEdge SE9k inverter driver of the `src` tree: the same percentage
  and mean (added once per cycle), handled at most every 10 seconds and only
  once the hardware maximum has been read; the reactive power limit and the
  cos φ reference are always written as 100 and 1.
 */
module SolarEdgeSe9kGated {
  import opened Common
  import opened MeanWindow
  import SEM = SolarEdgeMean
  import S = SolarEdgeSe9k

  const NanosPerSecond: int := 1_000_000_000

  /** The minimum time between two limit updates, in seconds. */
  const UpdatePeriod: int := 10

  /** The three values offered to the setters in one update. When a setter
      throws, the ones after it are not written; which one throws is not
      modelled (`writeThrows` says only that one did). */
  datatype Writes = Writes(activePowerLimit: real, reactivePowerLimit: real, cosPhiRef: real)

  /** `Duration.between(last, now).getSeconds() >= 10`; `Instant.MIN` (`None`)
      lies more than 10 seconds before any instant. */
  function Due(last: Option<int>, now: int): (b: bool)
    ensures last.None? ==> b
    ensures last.Some? ==> (b <==> last.value + UpdatePeriod * NanosPerSecond <= now)
  {
    last.None? || FloorDiv(now - last.value, NanosPerSecond) >= UpdatePeriod
  }

  /** The percentage of `handleActivePowerLimit` for a defined hardware maximum. */
  function GatedPercentage(pending: Option<int>, epcMaxActivePower: real): (p: real)
    requires pending.Some? ==> !(pending.value == 0 && epcMaxActivePower == 0.0)
    ensures 1.0 <= p <= 100.0
    ensures pending.None? ==> p == 100.0
    ensures pending.Some? ==> p == S.Percentage(pending.value, epcMaxActivePower)
  {
    if pending.None? then 100.0 else S.Percentage(pending.value, epcMaxActivePower)
  }

  class Inverter {
    const readOnly: bool
    var lastHandleActivePowerLimit: Option<int>
    var pvLimitFailed: bool
    var readOnlyModePvLimitFailed: bool
    const limitMean: SEM.WeightedMean

    ghost predicate Valid()
      reads this, limitMean
    {
      limitMean.weights == S.LimitWeights && limitMean.Valid() && WindowWithin(limitMean.window, 1.0, 100.0)
    }

    constructor (readOnly: bool)
      ensures Valid()
      ensures this.readOnly == readOnly && lastHandleActivePowerLimit == None && limitMean.window == None
    {
      this.readOnly := readOnly;
      lastHandleActivePowerLimit := None;
      pvLimitFailed := false;
      readOnlyModePvLimitFailed := false;
      limitMean := new SEM.WeightedMean(S.LimitWeights);
    }

    /** `handleEvent`: only the execute-write topic does anything. Returns the
        values written to the inverter. */
    method HandleEvent(enabled: bool, initialized: bool, topic: S.Topic, pendingLimit: Option<int>,
                       epcMaxActivePower: Option<real>, now: int, writeThrows: bool)
      returns (writes: Option<Writes>)
      requires Valid()
      // only a due update with a known maximum divides by it
      requires (enabled && initialized && topic == S.CycleExecuteWrite && !readOnly &&
                Due(lastHandleActivePowerLimit, now) && epcMaxActivePower.Some?) ==>
        S.Divisible(pendingLimit, epcMaxActivePower)
      modifies this, limitMean
      ensures Valid()
      ensures !(enabled && initialized) ==> !pvLimitFailed && !readOnlyModePvLimitFailed && writes == None
      ensures enabled && initialized && topic != S.CycleExecuteWrite ==>
        writes == None && pvLimitFailed == old(pvLimitFailed) &&
        readOnlyModePvLimitFailed == old(readOnlyModePvLimitFailed)
      ensures enabled && initialized && topic == S.CycleExecuteWrite && readOnly ==>
        writes == None && readOnlyModePvLimitFailed == pendingLimit.Some? &&
        lastHandleActivePowerLimit == old(lastHandleActivePowerLimit)
      ensures enabled && initialized && topic == S.CycleExecuteWrite && !readOnly ==>
        !readOnlyModePvLimitFailed && (pvLimitFailed <==> writes.Some? && writeThrows) &&
        ActivePowerLimitHandled(pendingLimit, epcMaxActivePower, now, writes)
      ensures !(enabled && initialized && topic == S.CycleExecuteWrite && !readOnly) ==>
        limitMean.window == old(limitMean.window) &&
        lastHandleActivePowerLimit == old(lastHandleActivePowerLimit)
    {
      writes := None;
      if !(enabled && initialized) {
        pvLimitFailed := false;
        readOnlyModePvLimitFailed := false;
        return;
      }
      if topic == S.CycleExecuteWrite {
        writes := ProcessTopicCycleExecuteWrite(pendingLimit, epcMaxActivePower, now, writeThrows);
      }
    }

    /** `processTopicCycleExecuteWrite` */
    method ProcessTopicCycleExecuteWrite(pendingLimit: Option<int>, epcMaxActivePower: Option<real>, now: int,
                                         writeThrows: bool)
      returns (writes: Option<Writes>)
      requires Valid()
      requires !readOnly && Due(lastHandleActivePowerLimit, now) && epcMaxActivePower.Some? ==>
        S.Divisible(pendingLimit, epcMaxActivePower)
      modifies this, limitMean
      ensures Valid()
      ensures readOnly ==>
        writes == None && readOnlyModePvLimitFailed == pendingLimit.Some? &&
        pvLimitFailed == old(pvLimitFailed) && limitMean.window == old(limitMean.window) &&
        lastHandleActivePowerLimit == old(lastHandleActivePowerLimit)
      ensures !readOnly ==>
        !readOnlyModePvLimitFailed && (pvLimitFailed <==> writes.Some? && writeThrows) &&
        ActivePowerLimitHandled(pendingLimit, epcMaxActivePower, now, writes)
    {
      if readOnly {
        readOnlyModePvLimitFailed := pendingLimit.Some?;
        return None;
      }
      readOnlyModePvLimitFailed := false;
      writes := HandleActivePowerLimit(pendingLimit, epcMaxActivePower, now);
      pvLimitFailed := writes.Some? && writeThrows;
    }

    /** The update time, the mean and the writes after `handleActivePowerLimit`. */
    twostate predicate ActivePowerLimitHandled(pendingLimit: Option<int>, epcMaxActivePower: Option<real>, now: int,
                                               new writes: Option<Writes>)
      requires old(Valid())
      requires Due(old(lastHandleActivePowerLimit), now) && epcMaxActivePower.Some? ==>
        S.Divisible(pendingLimit, epcMaxActivePower)
      reads this, limitMean
    {
      (!Due(old(lastHandleActivePowerLimit), now) ==>
        writes == None && lastHandleActivePowerLimit == old(lastHandleActivePowerLimit) &&
        limitMean.window == old(limitMean.window)) &&
      (Due(old(lastHandleActivePowerLimit), now) ==> lastHandleActivePowerLimit == Some(now)) &&
      (Due(old(lastHandleActivePowerLimit), now) && epcMaxActivePower.None? ==>
        writes == None && limitMean.window == old(limitMean.window)) &&
      (Due(old(lastHandleActivePowerLimit), now) && epcMaxActivePower.Some? ==>
        limitMean.window == Some(Added(old(limitMean.window),
          GatedPercentage(pendingLimit, epcMaxActivePower.value), |S.LimitWeights|)) &&
        writes == Some(Writes(Mean(limitMean.window, S.LimitWeights), 100.0, 1.0)))
    }

    /** `handleActivePowerLimit`: nothing within 10 seconds of the last update;
        otherwise the update time is taken, and with a known hardware maximum
        the clamped percentage enters the mean and the mean is written, with
        100 as reactive power limit and 1 as cos φ. */
    method HandleActivePowerLimit(pendingLimit: Option<int>, epcMaxActivePower: Option<real>, now: int)
      returns (writes: Option<Writes>)
      requires Valid()
      requires Due(lastHandleActivePowerLimit, now) && epcMaxActivePower.Some? ==>
        S.Divisible(pendingLimit, epcMaxActivePower)
      modifies this, limitMean
      ensures Valid()
      ensures ActivePowerLimitHandled(pendingLimit, epcMaxActivePower, now, writes)
      ensures writes.Some? ==> 1.0 <= writes.value.activePowerLimit <= 100.0
      ensures pvLimitFailed == old(pvLimitFailed)
      ensures readOnlyModePvLimitFailed == old(readOnlyModePvLimitFailed)
    {
      if !Due(lastHandleActivePowerLimit, now) {
        return None;
      }
      lastHandleActivePowerLimit := Some(now);
      if epcMaxActivePower.None? {
        return None;
      }
      writes := UpdateLimit(pendingLimit, epcMaxActivePower.value);
    }

    /** The part of `handleActivePowerLimit` after the hardware maximum was read. */
    method UpdateLimit(pendingLimit: Option<int>, epcMaxActivePower: real) returns (writes: Option<Writes>)
      requires Valid()
      requires S.Divisible(pendingLimit, Some(epcMaxActivePower))
      modifies limitMean
      ensures Valid()
      ensures limitMean.window == Some(Added(old(limitMean.window),
        GatedPercentage(pendingLimit, epcMaxActivePower), |S.LimitWeights|))
      ensures writes == Some(Writes(Mean(limitMean.window, S.LimitWeights), 100.0, 1.0))
      ensures 1.0 <= writes.value.activePowerLimit <= 100.0
    {
      var p := GatedPercentage(pendingLimit, epcMaxActivePower);
      ghost var before := limitMean.window;
      limitMean.AddValue(p);
      AddedWithin(before, p, |S.LimitWeights|, 1.0, 100.0);
      var mean := limitMean.GetMean();
      MeanWithinSamples(limitMean.window.value, S.LimitWeights, 1.0, 100.0);
      writes := Some(Writes(mean, 100.0, 1.0));
    }
  }

  /** Two updates are at least 10 seconds apart: after an update at `t`, no
      instant before `t + 10 s` is due, and every later one is. */
  lemma UpdatesTenSecondsApart(t: int, now: int)
    ensures Due(Some(t), now) <==> now - t >= UpdatePeriod * NanosPerSecond
  {
  }
}
