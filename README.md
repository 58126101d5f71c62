# OpenEMS add-ons: paragraph 14a control, inverter and wallbox drivers, LDAP users

This project models the core of a set of OpenEMS Edge add-ons and proves
properties of the model:

- **Relay decoders** (`management.dfy`). The grid operator's control box
  drives relays that set a production and a consumption management level
  under paragraph 14a of the German Energy Industry Act (EnWG).
  `ProductionLevels` and `ConsumptionLevels` hold the levels and the
  decoders. `RelaisMode` holds the wiring schemes and the dispatch that
  turns four relay readings into the new levels.
- **Multi-inverter controller** (`multi_inverter_controller.dfy`, a class).
  It sums the PV inverters' production and derives a limit for the sum
  from the production level. It ramps that limit and shares it out in
  proportion to each inverter's hardware maximum. It then distributes a
  charging budget over the EVCS clusters in their configured order.
- **Single-inverter controller** (`single_inverter_controller.dfy`, a
  class). It works on one inverter and one cluster. It smooths the limit
  and the budget through two weighted means, and merges its values with
  writes that other controllers left pending.
- **Weighted means** (`weighted_mean.dfy`). `MeanWindow` holds the sliding
  window behind both `WeightedMean` classes. `ControllerMean` and
  `SolarEdgeMean` are the two classes.
- **DiffTimeApply** (`diff_time_apply.dfy`). It forwards a value only when
  it moved by more than a threshold or when a refresh deadline has passed.
  Both copies in the repository have the same `nextValue`, and one model
  covers them.
- **SolarEdge SE9k drivers** (`solaredge.dfy`). `SolarEdgeSe9k` turns the
  requested active power limit into a smoothed, rate-limited percentage of
  the hardware maximum. `SolarEdgeSe9kGated` is the older variant that
  updates at most every 10 seconds.
- **Heidelberg Energy Control wallbox** (`heidelberg.dfy`).
  `HeidelbergPhases` counts the phases in use from their voltages.
  `HeidelbergState` holds the charging-state table and the processor that
  sets plug and status.
- **Bestep relay board** (`io_bestep.dfy`, a class over arrays). It copies
  its inputs to its relays and reports its state in a debug line.
- **LDAP user service** (`ldap.dfy`). `LdapUtils` reads directory
  attributes and picks a user's global role. `LdapUserService` validates
  credentials, binds and reads the user.
- **B+G DS100 meter** (`channel_mappings.dfy`). The table from energy
  registers to channels, for a meter mounted normally or inverted.

Channel values that may be undefined, and references that may be null, are
`Option`. Java `double`/`float` values are exact reals. Java `int` values
are unbounded, except in `HeidelbergPhases`, where the 32-bit overflow
matters. Instants are integer nanoseconds passed in by the caller. The LDAP
directory, Modbus writes that fail and `accept` callbacks that throw all
become parameters.

## Model

| member | source | states |
|---|---|---|
| ProductionLevels.ProductionManagment.Factor | edge/controller-para14a/src/main/java/de/poulter/openems/edge/controller/para14a/ProductionManagment.java:30-54 | the allowed share lies in 0..100; it is 100 exactly at `Full` and 0 exactly at `Off` |
| ProductionLevels.Undefined | edge/controller-para14a/src/main/java/de/poulter/openems/edge/controller/para14a/ProductionManagment.java:67-69 | an undefined channel stands for no production at all |
| ProductionLevels.UndefinedInputGivesOff | edge/controller-para14a/src/main/java/de/poulter/openems/edge/controller/para14a/ProductionManagment.java:71-100 | any undefined relay makes the 2-, 3- and 4-relay decoders give `Off`, wherever it sits |
| ProductionLevels.TwoBitTable | edge/controller-para14a/src/main/java/de/poulter/openems/edge/controller/para14a/ProductionManagment.java:71-79 | the full 2-bit truth table; every level is reached by some pair of defined inputs |
| ProductionLevels.ThreeRelayPriority | edge/controller-para14a/src/main/java/de/poulter/openems/edge/controller/para14a/ProductionManagment.java:81-89 | the first closed relay decides (E1 Off, E2 30 %, E3 60 %); the result is `Full` iff all relays are open |
| ProductionLevels.FourRelayPriority | edge/controller-para14a/src/main/java/de/poulter/openems/edge/controller/para14a/ProductionManagment.java:91-100 | same priority; `Full` iff only E4 is closed, and all open gives `Off` |
| ConsumptionLevels.Undefined | src/main/java/de/poulter/openems/edge/controller/para14a/ConsumptionManagment.java:55-57 | an undefined channel stands for the value-0 level `Off` |
| ConsumptionLevels.ForInput | src/main/java/de/poulter/openems/edge/controller/para14a/ConsumptionManagment.java:59-63 | a single contact gives `Full` iff it reads closed, and `Off` otherwise |
| ConsumptionLevels.DecodersAgree | edge-controller-para14a/src/main/java/de/poulter/openems/edge/controller/para14a/ConsumptionManagment.java:66-75 | the nested-conditional decoder and the if-chain decoder agree on every input, undefined ones included |
| ConsumptionLevels.UndefinedInputGivesOff | src/main/java/de/poulter/openems/edge/controller/para14a/ConsumptionManagment.java:65-74 | an undefined input gives `Off` in both decoders |
| ConsumptionLevels.TwoBitTable | src/main/java/de/poulter/openems/edge/controller/para14a/ConsumptionManagment.java:65-74 | the 2-bit truth table |
| ConsumptionLevels.TwoBitBijection | src/main/java/de/poulter/openems/edge/controller/para14a/ConsumptionManagment.java:65-74 | on defined inputs the decoder is injective and onto the four levels, so the unreachable `throw` is never hit |
| RelaisMode.DispatchFrame | src/main/java/de/poulter/openems/edge/controller/para14a/ControllerParagraph14aImpl.java:241-326 | the three-relay, four-relay and single-contact schemes keep the level they do not drive; every other scheme ignores the previous levels |
| RelaisMode.DispatchRouting | src/main/java/de/poulter/openems/edge/controller/para14a/ControllerParagraph14aImpl.java:241-326 | consumer-only schemes switch production off, producer-only schemes switch consumption off, no box switches both off, and the combined scheme decodes E1/E2 as consumption and E3/E4 as production |
| RelaisMode.AllUndefinedIsOff | src/main/java/de/poulter/openems/edge/controller/para14a/ControllerParagraph14aImpl.java:230-326 | when every relay read fails, each driven level is `Off` and each other level is kept |
| MultiInverterController.TargetSum | src/main/java/de/poulter/openems/edge/controller/para14a/ControllerParagraph14aImpl.java:372-384 | the target lies in `[0, hardwareMax]` and equals allowed share + grid power + production whenever that sum already lies there |
| MultiInverterController.Ramp | src/main/java/de/poulter/openems/edge/controller/para14a/ControllerParagraph14aImpl.java:387-419 | a rise never overshoots the target and a fall never undershoots it; a large rise moves a fifth of the way and a fall half of it; a small rise is held back (returning early) iff fewer than five came in a row; the fifth applies the target |
| MultiInverterController.Share | src/main/java/de/poulter/openems/edge/controller/para14a/ControllerParagraph14aImpl.java:423-436 | an inverter's limit lies in `[0, its hardware]` and is its proportional share of the sum rounded down |
| MultiInverterController.Limits | src/main/java/de/poulter/openems/edge/controller/para14a/ControllerParagraph14aImpl.java:423-436 | one limit per inverter of the hardware map, same keys in the same order, each its share |
| MultiInverterController.LimitsAddUpToSum | src/main/java/de/poulter/openems/edge/controller/para14a/ControllerParagraph14aImpl.java:423-436 | the limits never add up to more than the applied sum and fall short of it by less than one watt per inverter |
| MultiInverterController.RampStaysWithinHardware | src/main/java/de/poulter/openems/edge/controller/para14a/ControllerParagraph14aImpl.java:372-419 | the applied sum stays within `[0, hardwareMax]` |
| MultiInverterController.IncreaseReachesTarget | src/main/java/de/poulter/openems/edge/controller/para14a/ControllerParagraph14aImpl.java:387-419 | with at least 1 kW of hardware, a constant rising target is reached within `diff + 5` cycles |
| MultiInverterController.DecreaseByOneStalls | src/main/java/de/poulter/openems/edge/controller/para14a/ControllerParagraph14aImpl.java:387-419 | a sum one watt above the target stays there for ever, because half of 1 is 0 |
| MultiInverterController.LargeButTinyIncreaseStalls | src/main/java/de/poulter/openems/edge/controller/para14a/ControllerParagraph14aImpl.java:387-419 | below 1 kW of hardware, a rise of less than 5 W that is not "small" is never applied |
| MultiInverterController.SimultaneityFactor | src/main/java/de/poulter/openems/edge/controller/para14a/ControllerParagraph14aImpl.java:453-465 | 0 % below two stations, 80 % falling by 5 % per station up to eight, 45 % beyond |
| MultiInverterController.MinimumPower | src/main/java/de/poulter/openems/edge/controller/para14a/ControllerParagraph14aImpl.java:477 | 4.2 kW for one station, plus 4.2 kW times the factor for each further station |
| MultiInverterController.MinimumPowerMonotone | src/main/java/de/poulter/openems/edge/controller/para14a/ControllerParagraph14aImpl.java:453-477 | more stations never lower the guaranteed power, and from one station on they raise it strictly |
| MultiInverterController.AllowedPower | src/main/java/de/poulter/openems/edge/controller/para14a/ControllerParagraph14aImpl.java:467-486 | no limit (-1) at `Full`, minimum plus production at `Reduced`, production at `Off`, 0 at `Unused` |
| MultiInverterController.FirstPass | src/main/java/de/poulter/openems/edge/controller/para14a/ControllerParagraph14aImpl.java:503-514 | every grant is non-negative and together they stay within the budget |
| MultiInverterController.Distribution | src/main/java/de/poulter/openems/edge/controller/para14a/ControllerParagraph14aImpl.java:488-538 | every configured cluster, and no other, gets an entry |
| MultiInverterController.DistributionWithoutBudget | src/main/java/de/poulter/openems/edge/controller/para14a/ControllerParagraph14aImpl.java:495-498 | with no budget (below 1) every cluster is given the budget value itself |
| MultiInverterController.DistributionWithinBudget | src/main/java/de/poulter/openems/edge/controller/para14a/ControllerParagraph14aImpl.java:488-538 | with a budget and distinct clusters, each grant is non-negative, the grants stay within the budget, and less than one watt per cluster is left over |
| MultiInverterController.WithinBudgetToppedUp | src/main/java/de/poulter/openems/edge/controller/para14a/ControllerParagraph14aImpl.java:519-530 | when a leftover is shared out, the grants stay non-negative and within the budget, and less than one watt per cluster remains |
| MultiInverterController.LeftoverShare | src/main/java/de/poulter/openems/edge/controller/para14a/ControllerParagraph14aImpl.java:519-530 | the leftover per cluster is non-negative and is the floor of leftover / clusters |
| MultiInverterController.Controller.constructor | src/main/java/de/poulter/openems/edge/controller/para14a/ControllerParagraph14aImpl.java:95-100 | both levels `Off`, no inverters, no previous sum, counter 0 |
| MultiInverterController.Controller.Activate | src/main/java/de/poulter/openems/edge/controller/para14a/ControllerParagraph14aImpl.java:110-154 | takes the scheme and the clusters, levels `Off`, no previous sum, hardware map built from the configuration (given at least as many maxima as ids, as parsed integers) |
| MultiInverterController.Controller.Deactivate | src/main/java/de/poulter/openems/edge/controller/para14a/ControllerParagraph14aImpl.java:156-170 | levels `Off`, no inverters, no clusters, no previous sum |
| MultiInverterController.Controller.MapRelaisInputs | src/main/java/de/poulter/openems/edge/controller/para14a/ControllerParagraph14aImpl.java:241-326 | the new levels are the dispatch of the readings from the old levels; nothing else changes |
| MultiInverterController.Controller.HandleEvent | src/main/java/de/poulter/openems/edge/controller/para14a/ControllerParagraph14aImpl.java:172-181 | only while enabled and before the controllers are the relays decoded; any other event leaves the state unchanged |
| MultiInverterController.Controller.CalculatePvInverterLimits | src/main/java/de/poulter/openems/edge/controller/para14a/ControllerParagraph14aImpl.java:348-439 | at `Full` every inverter gets its hardware maximum; otherwise the ramp either holds the previous limits (counting) or applies a new sum shared out over the inverters; the last applied sum stays within the hardware range |
| MultiInverterController.Controller.Run | src/main/java/de/poulter/openems/edge/controller/para14a/ControllerParagraph14aImpl.java:183-216 | one cycle: production sum; inverter limits, last sum and counter as the ramp computes them from that sum; station count, budget of the consumption level and its distribution, with undefined readings as 0; the scheme and levels are kept |
| MultiInverterController.HardwareMap | src/main/java/de/poulter/openems/edge/controller/para14a/ControllerParagraph14aImpl.java:131-145 | every configured inverter has an entry, no other does, keys are distinct, and a repeated inverter keeps its last maximum |
| MultiInverterController.HardwareMapGet | src/main/java/de/poulter/openems/edge/controller/para14a/ControllerParagraph14aImpl.java:131-145 | every configured inverter can be looked up, and its last configuration decides its maximum |
| MultiInverterController.SumOf | src/main/java/de/poulter/openems/edge/controller/para14a/ControllerParagraph14aImpl.java:334-346 | the sum of the readings, undefined ones as 0 |
| MultiInverterController.SumOfMaxima | src/main/java/de/poulter/openems/edge/controller/para14a/ControllerParagraph14aImpl.java:351 | the sum of the hardware maxima |
| MultiInverterController.ComputeLimits | src/main/java/de/poulter/openems/edge/controller/para14a/ControllerParagraph14aImpl.java:423-436 | the loop builds exactly the specified limits |
| MultiInverterController.DistributePower | src/main/java/de/poulter/openems/edge/controller/para14a/ControllerParagraph14aImpl.java:488-538 | the two loops build exactly the specified distribution |
| MultiInverterController.PutEach | src/main/java/de/poulter/openems/edge/controller/para14a/ControllerParagraph14aImpl.java:495-498 | every cluster is put with the same value |
| MultiInverterController.GrantInOrder | src/main/java/de/poulter/openems/edge/controller/para14a/ControllerParagraph14aImpl.java:503-514 | the first loop grants in list order, and what is left is the budget minus all grants |
| MultiInverterController.AddToEach | src/main/java/de/poulter/openems/edge/controller/para14a/ControllerParagraph14aImpl.java:519-530 | the second loop adds the leftover share once per list entry |
| SingleInverterController.MeanWeightsValid | edge/controller-para14a/src/main/java/de/poulter/openems/edge/controller/para14a/ControllerParagraph14aImpl.java:98-109 | the ten weights are non-negative and sum to 335 |
| SingleInverterController.MergedPvLimit | edge/controller-para14a/src/main/java/de/poulter/openems/edge/controller/para14a/ControllerParagraph14aImpl.java:314-343 | the write never exceeds a non-negative pending value or the own limit; it is their minimum when both exist; a missing or negative pending value gives way to the own limit |
| SingleInverterController.MergedEvcsBudget | edge/controller-para14a/src/main/java/de/poulter/openems/edge/controller/para14a/ControllerParagraph14aImpl.java:429-456 | a non-negative pending budget is clamped into `[0, own]`; otherwise the own budget, or -1 without one |
| SingleInverterController.Controller.constructor | edge/controller-para14a/src/main/java/de/poulter/openems/edge/controller/para14a/ControllerParagraph14aImpl.java:98-109 | levels `Off`, no limits, two distinct empty means |
| SingleInverterController.Controller.Activate | edge/controller-para14a/src/main/java/de/poulter/openems/edge/controller/para14a/ControllerParagraph14aImpl.java:120-148 | takes the scheme, and both levels start at `Off` |
| SingleInverterController.Controller.Deactivate | edge/controller-para14a/src/main/java/de/poulter/openems/edge/controller/para14a/ControllerParagraph14aImpl.java:150-159 | both levels back to `Off` |
| SingleInverterController.Controller.MapRelaisInputs | edge/controller-para14a/src/main/java/de/poulter/openems/edge/controller/para14a/ControllerParagraph14aImpl.java:219-305 | the new levels are the dispatch of the readings from the old levels |
| SingleInverterController.Controller.CalculatePvInverterActivePowerLimit | edge/controller-para14a/src/main/java/de/poulter/openems/edge/controller/para14a/ControllerParagraph14aImpl.java:345-420 | without readings the mean is cleared and the limit kept; at `Full` both are cleared; otherwise the clamped target enters the mean and the truncated mean is the limit |
| SingleInverterController.Controller.CheckPvInverterLimit | edge/controller-para14a/src/main/java/de/poulter/openems/edge/controller/para14a/ControllerParagraph14aImpl.java:314-343 | nothing without an inverter, else the merged limit |
| SingleInverterController.Controller.CheckEvcsMaximumAllowedPower | edge/controller-para14a/src/main/java/de/poulter/openems/edge/controller/para14a/ControllerParagraph14aImpl.java:429-456 | nothing without a cluster, else the merged budget |
| SingleInverterController.Controller.CalculateEvcsMaximumAllowedPower | edge/controller-para14a/src/main/java/de/poulter/openems/edge/controller/para14a/ControllerParagraph14aImpl.java:472-524 | nothing without a cluster; at `Full` no budget and the mean kept; otherwise the level's budget is smoothed |
| SingleInverterController.Controller.Run | edge/controller-para14a/src/main/java/de/poulter/openems/edge/controller/para14a/ControllerParagraph14aImpl.java:177-186 | the new limit and its mean are those of the limit calculation; the inverter write is the merged limit and never exceeds a non-negative pending value; without an inverter, a cluster below full consumption aborts the budget step and keeps budget and mean; otherwise the budget and its mean are those of the budget calculation on the inverter's power |
| SingleInverterController.Controller.HandleEvent | edge/controller-para14a/src/main/java/de/poulter/openems/edge/controller/para14a/ControllerParagraph14aImpl.java:161-175 | relays decoded only before the controllers; the budget is written only after them, and only with a cluster; nothing while disabled |
| SingleInverterController.SmoothedLimitWithinHardware | edge/controller-para14a/src/main/java/de/poulter/openems/edge/controller/para14a/ControllerParagraph14aImpl.java:345-420 | while the maximum stays the same, the smoothed limit stays within `[0, maxActivePower]` |
| SingleInverterController.SteadyInputIsReached | edge/controller-para14a/src/main/java/de/poulter/openems/edge/controller/para14a/ControllerParagraph14aImpl.java:345-420 | ten cycles with the same target make the limit exactly that target |
| SingleInverterController.ProductionScenario | edge-controller-para14a/src/test/java/de/poulter/openems/edge/controller/para14a/ControllerParagraph14aTest.java:40-122 | the test's 20 kW / 60 % scenario: limits 13000, then 14455, then 19500 |
| MeanWindow.Added | edge-controller-para14a/src/main/java/de/poulter/openems/edge/controller/para14a/WeightedMean.java:48-57 | the window keeps its size, drops the oldest sample and ends with the new value; a first add fills it with the value |
| MeanWindow.AddedTimes | edge/pvinverter-solaredge-se9k/src/main/java/de/poulter/openems/edge/solaredge/pvinverter/WeightedMean.java:58-62 | no add for a count of 0 or less, otherwise a window of the same size |
| MeanWindow.Mean | edge-controller-para14a/src/main/java/de/poulter/openems/edge/controller/para14a/WeightedMean.java:59-63 | 0 while there is no window |
| MeanWindow.AddedWithin | edge-controller-para14a/src/main/java/de/poulter/openems/edge/controller/para14a/WeightedMean.java:48-57 | adding a value from `[low, high]` keeps every sample there |
| MeanWindow.AddedTimesWithin | edge/pvinverter-solaredge-se9k/src/main/java/de/poulter/openems/edge/solaredge/pvinverter/WeightedMean.java:58-62 | the same for repeated adds |
| MeanWindow.FirstAddFillsWindow | edge-controller-para14a/src/main/java/de/poulter/openems/edge/controller/para14a/WeightedMean.java:49-54 | the first add fills the whole window with the value |
| MeanWindow.AddedTimesShifts | edge/pvinverter-solaredge-se9k/src/main/java/de/poulter/openems/edge/solaredge/pvinverter/WeightedMean.java:58-73 | `count` adds leave the newest `count` samples equal to the value and shift the rest by `count` |
| MeanWindow.WindowForgetsHistory | edge-controller-para14a/src/main/java/de/poulter/openems/edge/controller/para14a/WeightedMean.java:48-57 | `size` adds of one value leave only that value, whatever came before |
| MeanWindow.MeanOfConstant | edge-controller-para14a/src/main/java/de/poulter/openems/edge/controller/para14a/WeightedMean.java:59-63 | the mean of a constant window is that constant |
| MeanWindow.MeanAtLeast | edge-controller-para14a/src/main/java/de/poulter/openems/edge/controller/para14a/WeightedMean.java:59-63 | the mean is never below a lower bound of the samples |
| MeanWindow.MeanWithinSamples | edge-controller-para14a/src/main/java/de/poulter/openems/edge/controller/para14a/WeightedMean.java:59-63 | the mean lies between any lower and upper bound of the samples |
| ControllerMean.WeightedMean.constructor | edge-controller-para14a/src/main/java/de/poulter/openems/edge/controller/para14a/WeightedMean.java:38-42 | the weights are kept and there is no window yet |
| ControllerMean.WeightedMean.Clear | edge-controller-para14a/src/main/java/de/poulter/openems/edge/controller/para14a/WeightedMean.java:44-46 | the window is gone |
| ControllerMean.WeightedMean.AddValue | edge-controller-para14a/src/main/java/de/poulter/openems/edge/controller/para14a/WeightedMean.java:48-57 | the new window is the specified add |
| ControllerMean.WeightedMean.GetMean | edge-controller-para14a/src/main/java/de/poulter/openems/edge/controller/para14a/WeightedMean.java:59-63 | 0 without a window, else the weighted average |
| ControllerMean.WeightedMean.NextValue | edge-controller-para14a/src/main/java/de/poulter/openems/edge/controller/para14a/WeightedMean.java:65-68 | adds, then returns the weighted average of the new window |
| ControllerMean.FillWindow | edge-controller-para14a/src/main/java/de/poulter/openems/edge/controller/para14a/WeightedMean.java:50 | `size` copies of the value |
| ControllerMean.WeightedDot | edge-controller-para14a/src/main/java/de/poulter/openems/edge/controller/para14a/WeightedMean.java:62 | the loop computes the weighted sum |
| ControllerMean.SumOfWeights | edge-controller-para14a/src/main/java/de/poulter/openems/edge/controller/para14a/WeightedMean.java:62 | the loop computes the sum of the weights |
| SolarEdgeMean.BiasedCount | edge/pvinverter-solaredge-se9k/src/main/java/de/poulter/openems/edge/solaredge/pvinverter/WeightedMean.java:44-56 | `countHigher` adds above 110 % of the mean, `countLower` below 90 %, one in between |
| SolarEdgeMean.WeightedMean.constructor | edge/pvinverter-solaredge-se9k/src/main/java/de/poulter/openems/edge/solaredge/pvinverter/WeightedMean.java:38-42 | the weights are kept and there is no window yet |
| SolarEdgeMean.WeightedMean.AddValue | edge/pvinverter-solaredge-se9k/src/main/java/de/poulter/openems/edge/solaredge/pvinverter/WeightedMean.java:64-73 | the new window is the specified add |
| SolarEdgeMean.WeightedMean.AddValueTimes | edge/pvinverter-solaredge-se9k/src/main/java/de/poulter/openems/edge/solaredge/pvinverter/WeightedMean.java:58-62 | the loop performs exactly `count` adds |
| SolarEdgeMean.WeightedMean.AddValueBiased | edge/pvinverter-solaredge-se9k/src/main/java/de/poulter/openems/edge/solaredge/pvinverter/WeightedMean.java:44-56 | the value is added as often as its distance from the mean before the call says |
| SolarEdgeMean.WeightedMean.GetMean | edge/pvinverter-solaredge-se9k/src/main/java/de/poulter/openems/edge/solaredge/pvinverter/WeightedMean.java:75-79 | 0 without a window, else the weighted average |
| SolarEdgeMean.JumpUpReplacesWindow | edge/pvinverter-solaredge-se9k/src/main/java/de/poulter/openems/edge/solaredge/pvinverter/WeightedMean.java:44-62 | a value well above the mean, added at least `size` times, becomes the mean at once |
| SolarEdgeMean.SmallChangeAddsOnce | edge/pvinverter-solaredge-se9k/src/main/java/de/poulter/openems/edge/solaredge/pvinverter/WeightedMean.java:44-56 | a value within 10 % of the mean is added exactly once |
| DiffTimeApply.Applies | lib/src/main/java/de/poulter/openems/lib/utils/DiffTimeApply.java:46-64 | the first value and every value after the deadline are applied; before the deadline, a value is applied iff it moved strictly more than the threshold |
| DiffTimeApply.NextDeadline | lib/src/main/java/de/poulter/openems/lib/utils/DiffTimeApply.java:46-64 | half the timeout, rounded up to whole seconds, from now; 15 s without a timeout |
| DiffTimeApply.Step | lib/src/main/java/de/poulter/openems/lib/utils/DiffTimeApply.java:46-64 | skipped iff not applicable; rejected iff `accept` throws, and then nothing changes; applied values become current and get a new deadline; the state invariant is kept |
| DiffTimeApply.DiffTimeApply.constructor | lib/src/main/java/de/poulter/openems/lib/utils/DiffTimeApply.java:38-44 | no current value, no deadline, nothing accepted |
| DiffTimeApply.DiffTimeApply.NextValue | lib/src/main/java/de/poulter/openems/lib/utils/DiffTimeApply.java:46-64 | the new state and the outcome are those of `Step` |
| DiffTimeApply.RefreshPeriod | lib/src/main/java/de/poulter/openems/lib/utils/DiffTimeApply.java:46-64 | after an application, a value within the threshold is applied again iff the deadline has passed |
| DiffTimeApply.DefaultRefreshPeriod | lib/src/main/java/de/poulter/openems/lib/utils/DiffTimeApply.java:46-64 | without a timeout, a repeated value is applied again iff more than 15 s have passed |
| DiffTimeApply.ThresholdIsStrict | lib/src/main/java/de/poulter/openems/lib/utils/DiffTimeApply.java:46-64 | a change of exactly the threshold, either way, is not applied before the deadline |
| DiffTimeApply.StepKeepsAcceptedWithin | src/main/java/de/poulter/openems/edge/solaredge/pvinverter/DiffTimeApply.java:23-41 | offered values within bounds keep every accepted value within them |
| DiffTimeApply.FirstValueApplies | src/main/java/de/poulter/openems/edge/solaredge/pvinverter/DiffTimeApply.java:23-41 | a fresh instance applies its first value at any time |
| SolarEdgeSe9k.Percentage | edge/pvinverter-solaredge-se9k/src/main/java/de/poulter/openems/edge/solaredge/pvinverter/SolarEdgeSe9kPvInverterImpl.java:317-333 | the percentage lies in `[1, 100]`; it is 100 at or above the maximum, 1 for a non-positive limit, and the exact ratio inside the bounds |
| SolarEdgeSe9k.LimitPercentage | edge/pvinverter-solaredge-se9k/src/main/java/de/poulter/openems/edge/solaredge/pvinverter/SolarEdgeSe9kPvInverterImpl.java:316-333 | 100 without a requested limit or without a known maximum, else the clamped percentage |
| SolarEdgeSe9k.Inverter.constructor | edge/pvinverter-solaredge-se9k/src/main/java/de/poulter/openems/edge/solaredge/pvinverter/SolarEdgeSe9kPvInverterImpl.java:140-152 | configuration kept; no override value and no next override value, empty mean, nothing written |
| SolarEdgeSe9k.Inverter.HandleEvent | edge/pvinverter-solaredge-se9k/src/main/java/de/poulter/openems/edge/solaredge/pvinverter/SolarEdgeSe9kPvInverterImpl.java:160-180 | while disabled or uninitialised the failure flags are cleared and nothing is written; after the controllers a pending override becomes the next value of the override channel; no event changes the override value this cycle reads; on execute-write a read-only inverter flags a requested limit, any other gets the mean, the three rate-limiter states and the failure flag of applying the limits; no other event touches the mean or the rate limiters |
| SolarEdgeSe9k.Inverter.ProcessTopicCycleAfterControllers | edge/pvinverter-solaredge-se9k/src/main/java/de/poulter/openems/edge/solaredge/pvinverter/SolarEdgeSe9kPvInverterImpl.java:182-187 | a pending override becomes the next value of the override channel (`_setOverrideActivePower` is `setNextValue`); the value read this cycle and the failure flags are unchanged |
| SolarEdgeSe9k.Inverter.SwitchProcessImage | edge/pvinverter-solaredge-se9k/src/main/java/de/poulter/openems/edge/solaredge/pvinverter/SolarEdgeSe9kPvInverter.java:183-193 | the override channel's next value becomes the value `getOverrideActivePower` reads, so an override taken after the controllers is applied at the next cycle's execute-write; the next value and the failure flags are kept |
| SolarEdgeSe9k.Inverter.ProcessTopicCycleExecuteWrite | edge/pvinverter-solaredge-se9k/src/main/java/de/poulter/openems/edge/solaredge/pvinverter/SolarEdgeSe9kPvInverterImpl.java:189-209 | read-only: flags whether a limit was requested and writes nothing; otherwise the mean and the three rate-limiter states are those of applying the limits, and `PvLimitFailed` is set iff an attempted write threw |
| SolarEdgeSe9k.Inverter.ApplyEpcDynamicLimits | edge/pvinverter-solaredge-se9k/src/main/java/de/poulter/openems/edge/solaredge/pvinverter/SolarEdgeSe9kPvInverterImpl.java:299-303 | active power limit, then reactive power limit only if that did not throw, then cos φ only if neither did; fails iff an attempted write threw; the new mean and rate-limiter states are those of the attempted steps, a skipped limiter unchanged |
| SolarEdgeSe9k.Inverter.ApplyEpcDynamicActivePowerLimit | edge/pvinverter-solaredge-se9k/src/main/java/de/poulter/openems/edge/solaredge/pvinverter/SolarEdgeSe9kPvInverterImpl.java:305-342 | a non-negative override, clamped, bypasses the mean; otherwise the percentage enters the mean biased 3:1 towards falling values and the mean is offered to the rate limiter (the window and offered value of `OfferedActivePowerLimit`) |
| SolarEdgeSe9k.Inverter.SmoothLimit | edge/pvinverter-solaredge-se9k/src/main/java/de/poulter/openems/edge/solaredge/pvinverter/SolarEdgeSe9kPvInverterImpl.java:336-338 | the percentage enters the mean three times when falling and once when rising, and the returned mean stays within `[1, 100]` |
| SolarEdgeSe9k.OfferedActivePowerLimit | edge/pvinverter-solaredge-se9k/src/main/java/de/poulter/openems/edge/solaredge/pvinverter/SolarEdgeSe9kPvInverterImpl.java:305-342 | a non-negative override, clamped to `[0, 100]`, is offered and leaves the mean alone; otherwise the offered value is the mean of the new window |
| SolarEdgeSe9k.Inverter.ApplyEpcDynamicReactivePowerLimit | edge/pvinverter-solaredge-se9k/src/main/java/de/poulter/openems/edge/solaredge/pvinverter/SolarEdgeSe9kPvInverterImpl.java:344-347 | the reference clamped to `[0, 100]` is offered to its rate limiter |
| SolarEdgeSe9k.Inverter.ApplyEpcDynamicCosPhiRef | edge/pvinverter-solaredge-se9k/src/main/java/de/poulter/openems/edge/solaredge/pvinverter/SolarEdgeSe9kPvInverterImpl.java:349-352 | cos φ clamped to `[-1, 1]` is offered to its rate limiter |
| SolarEdgeSe9k.FallingLimitCountsThreeTimes | edge/pvinverter-solaredge-se9k/src/main/java/de/poulter/openems/edge/solaredge/pvinverter/SolarEdgeSe9kPvInverterImpl.java:337-338 | a percentage below 90 % of the mean fills the three newest samples |
| SolarEdgeSe9k.RisingLimitCountsOnce | edge/pvinverter-solaredge-se9k/src/main/java/de/poulter/openems/edge/solaredge/pvinverter/SolarEdgeSe9kPvInverterImpl.java:337-338 | a percentage above 110 % of the mean is added once |
| SolarEdgeSe9kGated.Due | src/main/java/de/poulter/openems/edge/solaredge/pvinverter/SolarEdgeSe9kPvInverterImpl.java:246-250 | due iff at least 10 whole seconds have passed, and always the first time |
| SolarEdgeSe9kGated.GatedPercentage | src/main/java/de/poulter/openems/edge/solaredge/pvinverter/SolarEdgeSe9kPvInverterImpl.java:259-270 | 100 without a requested limit, else the clamped percentage |
| SolarEdgeSe9kGated.Inverter.constructor | src/main/java/de/poulter/openems/edge/solaredge/pvinverter/SolarEdgeSe9kPvInverterImpl.java:127-137 | no update yet and an empty mean |
| SolarEdgeSe9kGated.Inverter.HandleEvent | src/main/java/de/poulter/openems/edge/solaredge/pvinverter/SolarEdgeSe9kPvInverterImpl.java:145-160 | nothing but the execute-write topic writes; while disabled or uninitialised the flags are cleared; on execute-write when not read-only, the update time, mean and writes are those of `handleActivePowerLimit` and it fails iff writes were attempted and threw; otherwise mean and update time are kept |
| SolarEdgeSe9kGated.Inverter.ProcessTopicCycleExecuteWrite | src/main/java/de/poulter/openems/edge/solaredge/pvinverter/SolarEdgeSe9kPvInverterImpl.java:162-182 | read-only flags a requested limit and writes nothing; otherwise the update time, mean and writes are those of `handleActivePowerLimit`, and it fails iff writes were attempted and threw |
| SolarEdgeSe9kGated.Inverter.HandleActivePowerLimit | src/main/java/de/poulter/openems/edge/solaredge/pvinverter/SolarEdgeSe9kPvInverterImpl.java:244-280 | nothing within 10 s of the last update; otherwise the time is taken, and with a known maximum the mean is written with 100 and 1, always within `[1, 100]` |
| SolarEdgeSe9kGated.Inverter.UpdateLimit | src/main/java/de/poulter/openems/edge/solaredge/pvinverter/SolarEdgeSe9kPvInverterImpl.java:258-279 | the percentage enters the mean once; the written mean lies within `[1, 100]` |
| SolarEdgeSe9kGated.UpdatesTenSecondsApart | src/main/java/de/poulter/openems/edge/solaredge/pvinverter/SolarEdgeSe9kPvInverterImpl.java:246-250 | after an update at `t`, an instant is due iff it is at least 10 s later |
| HeidelbergPhases.InUseWindow | edge/evcs-heidelberg-energy-control/src/main/java/de/poulter/openems/edge/evcs/heidelberg/energy/control/CalculateUsedPhasesFromVoltage.java:52-55 | the intended test accepts exactly the voltages strictly between 180 V and 280 V |
| HeidelbergPhases.InUseAsWrittenWindow | edge/evcs-heidelberg-energy-control/src/main/java/de/poulter/openems/edge/evcs/heidelberg/energy/control/CalculateUsedPhasesFromVoltage.java:52-55 | the 32-bit test accepts that window and exactly one more voltage, 230 + `Integer.MIN_VALUE` |
| HeidelbergPhases.OverflowCountsAPhase | edge/evcs-heidelberg-energy-control/src/main/java/de/poulter/openems/edge/evcs/heidelberg/energy/control/CalculateUsedPhasesFromVoltage.java:52-55 | -2147483418 V passes the test as written but not the intended one |
| HeidelbergPhases.UsedPhasesAsWritten | edge/evcs-heidelberg-energy-control/src/main/java/de/poulter/openems/edge/evcs/heidelberg/energy/control/CalculateUsedPhasesFromVoltage.java:47-62 | at most 3; 0 iff no voltage passes the 32-bit test; 3 iff all do |
| HeidelbergPhases.UsedPhases | edge/evcs-heidelberg-energy-control/src/main/java/de/poulter/openems/edge/evcs/heidelberg/energy/control/CalculateUsedPhasesFromVoltage.java:47-62 | at most 3; 0 iff no voltage is within 50 V of 230 V; 3 iff all are |
| HeidelbergPhases.AsWrittenAgreesAwayFromOverflow | edge/evcs-heidelberg-energy-control/src/main/java/de/poulter/openems/edge/evcs/heidelberg/energy/control/CalculateUsedPhasesFromVoltage.java:47-62 | away from that one voltage, both counts agree |
| HeidelbergPhases.UndefinedNeverCounts | edge/evcs-heidelberg-energy-control/src/main/java/de/poulter/openems/edge/evcs/heidelberg/energy/control/CalculateUsedPhasesFromVoltage.java:48-50 | an undefined voltage reads as 0 and never counts |
| HeidelbergPhases.UsedPhasesSymmetric | edge/evcs-heidelberg-energy-control/src/main/java/de/poulter/openems/edge/evcs/heidelberg/energy/control/CalculateUsedPhasesFromVoltage.java:52-55 | the count does not depend on the order of the phases |
| HeidelbergPhases.NominalVoltage | edge/evcs-heidelberg-energy-control/src/main/java/de/poulter/openems/edge/evcs/heidelberg/energy/control/CalculateUsedPhasesFromVoltage.java:38-55 | three nominal phases count 3; the bounds 180 V and 280 V themselves do not count |
| HeidelbergState.IsConnected | edge/evcs-heidelberg-energy-control/src/main/java/de/poulter/openems/edge/evcs/heidelberg/energy/control/Plug.java:42-48 | connected iff plugged |
| HeidelbergState.Value | edge/evcs-heidelberg-energy-control/src/main/java/de/poulter/openems/edge/evcs/heidelberg/energy/control/ChargingState.java:31-59 | every state's code lies in 2..11 |
| HeidelbergState.FromValue | edge/evcs-heidelberg-energy-control/src/main/java/de/poulter/openems/edge/evcs/heidelberg/energy/control/ChargingStateProcessor.java:48 | a state is found iff the code lies in 2..11, and it is the state with that code |
| HeidelbergState.ValueRoundTrip | edge/evcs-heidelberg-energy-control/src/main/java/de/poulter/openems/edge/evcs/heidelberg/energy/control/ChargingState.java:31-59 | looking up a state's code gives that state back |
| HeidelbergState.ValueInjective | edge/evcs-heidelberg-energy-control/src/main/java/de/poulter/openems/edge/evcs/heidelberg/energy/control/ChargingState.java:31-40 | no two states share a code |
| HeidelbergState.PlugTable | edge/evcs-heidelberg-energy-control/src/main/java/de/poulter/openems/edge/evcs/heidelberg/energy/control/ChargingState.java:31-40 | plugged iff a B or C state, unplugged iff an A state, undefined iff code 8 or more |
| HeidelbergState.StatusTable | edge/evcs-heidelberg-energy-control/src/main/java/de/poulter/openems/edge/evcs/heidelberg/energy/control/ChargingState.java:31-40 | charging iff C2, an error iff code 8..11, not ready iff A1/B1/C1, ready iff A2/B2, never undefined |
| HeidelbergState.UndefinedStateIsAnError | edge/evcs-heidelberg-energy-control/src/main/java/de/poulter/openems/edge/evcs/heidelberg/energy/control/ChargingState.java:74-77 | the undefined state is an error with an undefined plug |
| HeidelbergState.StateOf | edge/evcs-heidelberg-energy-control/src/main/java/de/poulter/openems/edge/evcs/heidelberg/energy/control/ChargingStateProcessor.java:48 | a state exists iff the code is defined and lies in 2..11 |
| HeidelbergState.NextStatus | edge/evcs-heidelberg-energy-control/src/main/java/de/poulter/openems/edge/evcs/heidelberg/energy/control/ChargingStateProcessor.java:50 | undefined iff there is no state, else the state's status |
| HeidelbergState.ProcessAsWritten | edge/evcs-heidelberg-energy-control/src/main/java/de/poulter/openems/edge/evcs/heidelberg/energy/control/ChargingStateProcessor.java:47-63 | reconfigures iff leaving an error or undefined status; plug and status are set iff the code has a state |
| HeidelbergState.UnknownCodeThrows | edge/evcs-heidelberg-energy-control/src/main/java/de/poulter/openems/edge/evcs/heidelberg/energy/control/ChargingStateProcessor.java:48-61 | code 12 computes an undefined status but sets nothing |
| HeidelbergState.Process | edge/evcs-heidelberg-energy-control/src/main/java/de/poulter/openems/edge/evcs/heidelberg/energy/control/ChargingStateProcessor.java:47-63 | always sets the next status; the plug is undefined iff there is no state or the code is 8 or more |
| HeidelbergState.ProcessAgreesOnKnownCodes | edge/evcs-heidelberg-energy-control/src/main/java/de/poulter/openems/edge/evcs/heidelberg/energy/control/ChargingStateProcessor.java:47-63 | on a known code both versions do the same |
| HeidelbergState.NoReconfigureWhileHealthy | edge/evcs-heidelberg-energy-control/src/main/java/de/poulter/openems/edge/evcs/heidelberg/energy/control/ChargingStateProcessor.java:52-59 | from a healthy status no reconfiguration is asked |
| HeidelbergState.RecoveryReconfigures | edge/evcs-heidelberg-energy-control/src/main/java/de/poulter/openems/edge/evcs/heidelberg/energy/control/ChargingStateProcessor.java:52-59 | leaving undefined for a known state, or an error for a non-error state, asks for reconfiguration |
| HeidelbergState.ProcessSettles | edge/evcs-heidelberg-energy-control/src/main/java/de/poulter/openems/edge/evcs/heidelberg/energy/control/ChargingStateProcessor.java:50-62 | the same code reported again asks for nothing |
| IoBestep.MappedWrite | edge/io-bestep/src/main/java/de/poulter/openems/edge/io/bestep/IoBestepImpl.java:190-207 | a write is requested iff none is pending, the input is defined, the relay does not show it, and the write is accepted; the request is the input |
| IoBestep.MappedWrites | edge/io-bestep/src/main/java/de/poulter/openems/edge/io/bestep/IoBestepImpl.java:190-207 | each relay independently as above |
| IoBestep.Symbols | edge/io-bestep/src/main/java/de/poulter/openems/edge/io/bestep/IoBestepImpl.java:147-157 | one symbol per channel, naming true, false or undefined |
| IoBestep.SymbolsRoundTrip | edge/io-bestep/src/main/java/de/poulter/openems/edge/io/bestep/IoBestepImpl.java:147-157 | with three distinct symbols, reading a row back gives the channel values |
| IoBestep.DebugLine | edge/io-bestep/src/main/java/de/poulter/openems/edge/io/bestep/IoBestepImpl.java:147-157 | 22 characters: `Output:`, the relays as `X`/`-`/`?`, `\|Input:`, the inputs as `I`/`O`/`?` |
| IoBestep.DebugLineRoundTrip | edge/io-bestep/src/main/java/de/poulter/openems/edge/io/bestep/IoBestepImpl.java:147-157 | the debug line determines the relays and the inputs |
| IoBestep.Board.constructor | edge/io-bestep/src/main/java/de/poulter/openems/edge/io/bestep/IoBestepImpl.java:107-139 | four channels each, all undefined, nothing pending |
| IoBestep.Board.DebugLog | edge/io-bestep/src/main/java/de/poulter/openems/edge/io/bestep/IoBestepImpl.java:147-157 | the debug line of the current arrays |
| IoBestep.Board.HandleEvent | edge/io-bestep/src/main/java/de/poulter/openems/edge/io/bestep/IoBestepImpl.java:160-173 | nothing while disabled; execute-write clears all pending writes; before the process image the mapper runs iff configured |
| IoBestep.Board.ProcessTopicCycleExecuteWrite | edge/io-bestep/src/main/java/de/poulter/openems/edge/io/bestep/IoBestepImpl.java:175-181 | every pending write is taken |
| IoBestep.Board.RunChannelMapper | edge/io-bestep/src/main/java/de/poulter/openems/edge/io/bestep/IoBestepImpl.java:190-207 | the pending writes become the mapped writes of the old ones |
| IoBestep.MapperIdempotent | edge/io-bestep/src/main/java/de/poulter/openems/edge/io/bestep/IoBestepImpl.java:190-207 | running the mapper twice on the same readings equals running it once |
| IoBestep.MirroredRelaysNeedNoWrite | edge/io-bestep/src/main/java/de/poulter/openems/edge/io/bestep/IoBestepImpl.java:190-207 | relays that show their inputs need no write |
| IoBestep.MappedRelayIsStable | edge/io-bestep/src/main/java/de/poulter/openems/edge/io/bestep/IoBestepImpl.java:190-207 | once a mapped write is executed, the mapper leaves the relay alone |
| LdapUtils.ExtractValue | edge/metadata-ldap/src/main/java/de/poulter/openems/edge/metadata/ldap/LdapUtils.java:93-108 | null for a missing attribute, a throw for one without values, else its first value |
| LdapUtils.ExtractValueOr | edge/metadata-ldap/src/main/java/de/poulter/openems/edge/metadata/ldap/LdapUtils.java:65-83 | the same, with the default in place of null |
| LdapUtils.NonNull | edge/metadata-ldap/src/main/java/de/poulter/openems/edge/metadata/ldap/LdapUtils.java:137-142 | the kept values are exactly the non-null ones |
| LdapUtils.NonNullOfDefined | edge/metadata-ldap/src/main/java/de/poulter/openems/edge/metadata/ldap/LdapUtils.java:118-145 | a list without nulls is kept whole and in order |
| LdapUtils.ExtractValuesFromAttributes | edge/metadata-ldap/src/main/java/de/poulter/openems/edge/metadata/ldap/LdapUtils.java:118-145 | null for a missing attribute, else its non-null values in order |
| LdapUtils.BestRole | edge/metadata-ldap/src/main/java/de/poulter/openems/edge/metadata/ldap/LdapUtils.java:147-182 | none iff no listed group is known; otherwise the role of a listed known group with the lowest level |
| LdapUtils.ExtractGlobalRole | edge/metadata-ldap/src/main/java/de/poulter/openems/edge/metadata/ldap/LdapUtils.java:147-182 | null iff no or an empty role map, a missing attribute, or no known group; otherwise the most powerful role of a listed group |
| LdapUtils.MostPowerfulGroupWins | edge/metadata-ldap/src/main/java/de/poulter/openems/edge/metadata/ldap/LdapUtils.java:147-182 | a listed group at least as powerful as every other listed one decides the role |
| LdapUtils.BestRoleIgnoresOrder | edge/metadata-ldap/src/main/java/de/poulter/openems/edge/metadata/ldap/LdapUtils.java:147-182 | the role depends on which groups are listed, not on their order or repetition |
| LdapUtils.GroupRoles | edge/metadata-ldap/src/main/java/de/poulter/openems/edge/metadata/ldap/UserServiceImpl.java:98-102 | the four group names map to their roles, a later put winning on a shared name |
| LdapUtils.SingleGroup | edge/metadata-ldap/src/test/java/de/poulter/openems/edge/metadata/ldap/LdapUtilsTest.java:54-104 | each group alone gives its role; no role without a map, with an empty map or without the attribute |
| LdapUtils.MultipleGroups | edge/metadata-ldap/src/test/java/de/poulter/openems/edge/metadata/ldap/LdapUtilsTest.java:106-121 | guest+owner gives owner, adding installer gives installer, adding admin gives admin |
| LdapUtils.OwnerOverGuest | edge/metadata-ldap/src/test/java/de/poulter/openems/edge/metadata/ldap/LdapUtilsTest.java:107-112 | guest and owner together give owner |
| LdapUtils.InstallerOverOwner | edge/metadata-ldap/src/test/java/de/poulter/openems/edge/metadata/ldap/LdapUtilsTest.java:114-116 | guest, owner and installer together give installer |
| LdapUtils.AdminOverAll | edge/metadata-ldap/src/test/java/de/poulter/openems/edge/metadata/ldap/LdapUtilsTest.java:118-120 | all four groups together give admin |
| LdapUtils.UnknownGroupsIgnored | edge/metadata-ldap/src/test/java/de/poulter/openems/edge/metadata/ldap/LdapUtilsTest.java:71-76 | an unknown group gives no role, and unknown groups and nulls beside a known one are ignored |
| LdapUserService.ValidUsernameIsInert | edge/metadata-ldap/src/main/java/de/poulter/openems/edge/metadata/ldap/UserServiceImpl.java:150-160 | a valid username holds none of the characters special in a DN or search filter, nor `%` |
| LdapUserService.CredentialsAreStricter | edge/metadata-ldap/src/main/java/de/poulter/openems/edge/metadata/ldap/UserServiceImpl.java:150-160 | every valid password is a valid username, and the empty string is both |
| LdapUserService.TemplateWithoutPlaceholder | edge/metadata-ldap/src/main/java/de/poulter/openems/edge/metadata/ldap/UserServiceImpl.java:169 | a template without `%` is used unchanged |
| LdapUserService.PrincipalOfTemplate | edge/metadata-ldap/src/main/java/de/poulter/openems/edge/metadata/ldap/UserServiceImpl.java:169 | `prefix%%username%%suffix` becomes prefix, username, suffix |
| LdapUserService.RegisterAdminUser | edge/metadata-ldap/src/main/java/de/poulter/openems/edge/metadata/ldap/UserServiceImpl.java:249-252 | always throws |
| LdapUserService.UserService.Activate | edge/metadata-ldap/src/main/java/de/poulter/openems/edge/metadata/ldap/UserServiceImpl.java:81-105 | active, templates kept, role map built from the four group names |
| LdapUserService.UserService.Deactivate | edge/metadata-ldap/src/main/java/de/poulter/openems/edge/metadata/ldap/UserServiceImpl.java:107-124 | inactive, configuration forgotten |
| LdapUserService.UserService.AuthenticateAgainstLdap | edge/metadata-ldap/src/main/java/de/poulter/openems/edge/metadata/ldap/UserServiceImpl.java:162-191 | succeeds iff name and password are valid and the bind of the principal built from the template succeeds |
| LdapUserService.UserService.ReadUser | edge/metadata-ldap/src/main/java/de/poulter/openems/edge/metadata/ldap/UserServiceImpl.java:193-247 | a user is returned iff an entry is found with the filter, with a `uid`, a readable display name and language, and a known group; its id is the `uid`, its name the display name or else the `uid`, its role that of its groups; it throws iff the `uid` or (with a `uid`) the display name or the `preferredLanguage` attribute cannot be read, the latter through `extractLanguage` (LdapUtils.java:184-200), whose value is not kept |
| LdapUserService.UserService.Authenticate | edge/metadata-ldap/src/main/java/de/poulter/openems/edge/metadata/ldap/UserServiceImpl.java:126-141 | no user while inactive or with invalid input; while active, the user read from the directory iff the bind succeeds, else none; a returned user implies a successful bind and a configured role |
| LdapUserService.UserService.AuthenticateByPassword | edge/metadata-ldap/src/main/java/de/poulter/openems/edge/metadata/ldap/UserServiceImpl.java:143-148 | never a user |
| ChannelMappings.ChannelMatchesRegister | src/main/java/de/poulter/openems/edge/meter/bgetech/ds100/ChannelMappings.java:31-61 | each register fills the channel of its own phase and kind; its flow is production for forward energy, and inversion swaps it |
| ChannelMappings.PartnersSwapOnInversion | src/main/java/de/poulter/openems/edge/meter/bgetech/ds100/ChannelMappings.java:31-49 | an inverted register fills what its opposite-direction partner fills normally |
| ChannelMappings.ChannelsDistinct | src/main/java/de/poulter/openems/edge/meter/bgetech/ds100/ChannelMappings.java:31-61 | inverted or not, no two registers fill the same channel |
| ChannelMappings.EveryChannelFilled | src/main/java/de/poulter/openems/edge/meter/bgetech/ds100/ChannelMappings.java:31-61 | inverted or not, every energy channel is filled by some register |

## Left out

- Floating point: `double` and `float` are exact reals. Rounding, the `(float)` casts, and `NaN` are not modelled. `SolarEdgeSe9k.Percentage` excludes the one case, 0 / 0, that gives `NaN`. The drivers' members require `SolarEdgeSe9k.Divisible` only on the paths that divide; in the newer driver `SolarEdgeSe9k.LimitComputable` says that an active override needs nothing. In the newer driver that is an execute-write on a writable inverter with no active override (edge/pvinverter-solaredge-se9k/src/main/java/de/poulter/openems/edge/solaredge/pvinverter/SolarEdgeSe9kPvInverterImpl.java:309-328). There the excluded input is a requested limit of 0 with a hardware maximum of 0, or with no maximum, because the `orElse(activePowerLimit)` fallback at :327 then divides 0 by 0. In the gated driver it is a due update with a defined maximum of 0 (src/main/java/de/poulter/openems/edge/solaredge/pvinverter/SolarEdgeSe9kPvInverterImpl.java:264). In the source that `NaN` would enter the mean and be written to the inverter; the model does not follow it.
- Java `int` overflow is not modelled in the controllers, the sums or the distribution; their integers are unbounded. Only `HeidelbergPhases` models 32-bit arithmetic.
- The multi-inverter share is an exact floor of a rational. The source computes it in `double` and truncates.
- Channel `_set*` writes of output-only state (failure flags, relay and level channels) are modelled as fields set at once; the process-image switch is modelled only for the SolarEdge override channel, whose next value is read back by the driver (`SolarEdgeSe9k.Inverter.SwitchProcessImage`). Debug and error logging and the `FAULT` run status are not modelled. The `default` branch of the relay switch that would set `FAULT` cannot be reached: every enum value has a case.
- OSGi references, `updateReferenceFilter`, component lookups and the Modbus protocol definitions are not modelled. Readings are given as `Option` parameters.
- `SolarEdgeSe9kGated.Inverter.HandleActivePowerLimit`: the two `Instant.now()` calls are one `now`.
- `DiffTimeApply.DiffTimeApply.NextValue`: both copies read `Instant.now()` twice, once for the deadline check and once for the new deadline (lib/src/main/java/de/poulter/openems/lib/utils/DiffTimeApply.java:48 and :61). The model uses one `now` for both, and the SolarEdge driver uses one `now` for all three limiters.
- `SingleInverterController.Controller.Run`: the inverter and the cluster are mandatory references (edge/controller-para14a/src/main/java/de/poulter/openems/edge/controller/para14a/ControllerParagraph14aImpl.java:96-103), so the `None` inverter does not arise in a running component. The model still follows the code for it: the limit step clears its mean, and the budget step dereferences the missing inverter at line 496 when a cluster is present below full consumption. That ends `run` (`aborted`) with the budget and its mean unchanged. The thrown `NullPointerException` itself is not modelled.
- `MultiInverterController.Controller.Run`: a `setActivePowerLimit` that throws (src/main/java/de/poulter/openems/edge/controller/para14a/ControllerParagraph14aImpl.java:196-198) ends the source's cycle before the EVCS distribution. The model's cycle always completes, and the device writes are its result.
- `MultiInverterController.Controller.Activate`: the configuration is given as parsed `int` maxima, and the precondition states that there are at least as many maxima as inverter ids. Two throws of the source's `activate` are therefore not modelled: the `ArrayIndexOutOfBoundsException` when the maxima array is shorter than the ids array (src/main/java/de/poulter/openems/edge/controller/para14a/ControllerParagraph14aImpl.java:131-133), and the `OpenemsException` when a maximum cannot be parsed as an integer (:138-142).
- `SolarEdgeSe9kGated.Writes`: the three values are those offered to the setters. When a setter throws, the source skips the setters after it; which setter throws is not modelled.
- `SolarEdgeMean.WeightedMean`: the weights are not validated. Operations that compute a mean require valid weights, and the configured weights are proved valid.
- `HeidelbergPhases`: the conversion of the raw voltage to volts (`getAsBaseUnit`) is foreign. Voltages are given in volts.
- `HeidelbergState`: the numeric values of the EVCS `Status` enum are foreign. Only the names are modelled.
- `HeidelbergState.FromValue` assumes the enum lookup gives `null` for an unknown code; that lookup is foreign.
- `LdapUtils.Level`: the role levels are taken from OpenEMS `Role` as 0 (admin) to 3 (guest).
- `LdapUtils.ExtractValue`: `Attribute.get()` on an attribute without values is modelled as a throw.
- `LdapUtils`: the `required` flag only decides whether a missing attribute is logged, so it is absent.
- `LdapUtils.MultipleGroups`: the repository's test calls `put` four times (edge/metadata-ldap/src/test/java/de/poulter/openems/edge/metadata/ldap/LdapUtilsTest.java:109-118): the first adds the attribute, and each of the three later calls replaces it. The lemma states what the test names: several values in one attribute.
- `LdapUserService`: the directory I/O is not modelled. It is the `bind` and `search` parameters. Also left out: `LdapContextManager`, the `CompletableFuture` of `deactivate` that shuts the context manager down asynchronously, `createSearchControls`, the provider URL, context factory and users-OU fields, and the value `extractLanguage` gives (the user's language). Only its throw on a `preferredLanguage` attribute without values is modelled.
- `IoBestep`: a failed `setNextWriteValue` is the `rejected` parameter. Its log line is not modelled.
- `ChannelMappings`: the channel ids are modelled as flow, kind and phase. The OpenEMS channel-id enums themselves are foreign.
- `DiffTimeApply`: `accept` is abstract. It is modelled by the values it receives and by whether it throws.

## Findings

| source | as written | input that shows it | evidently intended | confidence | as-written member | corrected member |
|---|---|---|---|---|---|---|
| edge/evcs-heidelberg-energy-control/src/main/java/de/poulter/openems/edge/evcs/heidelberg/energy/control/CalculateUsedPhasesFromVoltage.java:52-55 | `Math.abs(230 - voltage) < 50` in `int` arithmetic | voltage -2147483418: `230 - v` overflows to `Integer.MIN_VALUE`, whose `Math.abs` is negative, so the phase counts | a phase counts only for voltages strictly between 180 V and 280 V | low: the driver fills the voltages only from unsigned 16-bit registers (edge/evcs-heidelberg-energy-control/src/main/java/de/poulter/openems/edge/evcs/heidelberg/energy/control/EvcsHeidelbergEnergyControlImpl.java:270-272), so this input is unreachable through this driver and the flaw shows only for a caller that passes such a value; not executed | HeidelbergPhases.UsedPhasesAsWritten (HeidelbergPhases.OverflowCountsAPhase) | HeidelbergPhases.UsedPhases (HeidelbergPhases.InUseWindow) |
| edge/evcs-heidelberg-energy-control/src/main/java/de/poulter/openems/edge/evcs/heidelberg/energy/control/ChargingStateProcessor.java:48-62 | the plug is read from the looked-up state even when the lookup found none | code 12, or an undefined code: the lookup gives `null` and `getPlug()` throws, so the `UNDEFINED` status computed at line 50 is never set | an unknown code sets plug and status to undefined | medium (depends on the foreign lookup returning `null`); not executed | HeidelbergState.ProcessAsWritten (HeidelbergState.UnknownCodeThrows) | HeidelbergState.Process |
