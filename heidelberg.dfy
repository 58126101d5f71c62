/**
  Phase counting for the Heidelberg Energy Control wallbox: a phase is in use
  when its voltage lies within 50 V of the nominal 230 V. Voltages arrive
  already converted to volts (the unit conversion is foreign); an undefined
  voltage reads as 0.
 */
module HeidelbergPhases {
  import opened Common

  /** `Evcs.DEFAULT_VOLTAGE` */
  const DefaultVoltage: int := 230
  const MinVoltageDiff: int := DefaultVoltage - 180
  const IntMinValue: int := -0x8000_0000

  predicate IsInt32(x: int) { IntMinValue <= x <= IntMaxValue }

  /** Java `int` arithmetic: the result reduced into the 32-bit range. */
  function Wrap32(x: int): (r: int)
    ensures IsInt32(r)
    ensures (r - x) % 0x1_0000_0000 == 0
    ensures IsInt32(x) ==> r == x
  {
    (x - IntMinValue) % 0x1_0000_0000 + IntMinValue
  }

  /** `Math.abs` on an `int`: the minimum value is its own absolute value. */
  function Abs32(x: int): int
    requires IsInt32(x)
  {
    if x == IntMinValue then x else Abs(x)
  }

  /** The test on one phase as written, in 32-bit arithmetic. */
  predicate InUseAsWritten(v: int)
    requires IsInt32(v)
  {
    Abs32(Wrap32(DefaultVoltage - v)) < MinVoltageDiff
  }

  /** The test on one phase as intended: `|230 - v| < 50`. */
  predicate InUse(v: int) {
    Abs(DefaultVoltage - v) < MinVoltageDiff
  }

  /** The intended test accepts exactly the open window (180 V, 280 V). */
  lemma InUseWindow(v: int)
    ensures InUse(v) <==> 180 < v < 280
  {
  }

  /** The test as written accepts the same window, and one more voltage:
      the one for which `230 - v` overflows to the minimum `int`, whose
      `Math.abs` is negative. */
  lemma InUseAsWrittenWindow(v: int)
    requires IsInt32(v)
    ensures InUseAsWritten(v) <==> (180 < v < 280 || v == DefaultVoltage + IntMinValue)
  {
    if v < DefaultVoltage + IntMinValue {
      assert DefaultVoltage - v > IntMaxValue;
      assert Wrap32(DefaultVoltage - v) == DefaultVoltage - v - 0x1_0000_0000;
    } else if v == DefaultVoltage + IntMinValue {
      assert Wrap32(DefaultVoltage - v) == IntMinValue;
    } else {
      assert IsInt32(DefaultVoltage - v);
    }
  }

  /** A reading of -2147483418 V counts as a phase in use. */
  lemma OverflowCountsAPhase()
    ensures IsInt32(-2147483418)
    ensures InUseAsWritten(-2147483418) && !InUse(-2147483418)
  {
    assert Wrap32(DefaultVoltage - -2147483418) == IntMinValue;
  }

  /** An undefined voltage reads as 0. */
  function Reading(v: Option<int>): int {
    v.GetOr(0)
  }

  function CountIf(b: bool): nat { if b then 1 else 0 }

  /** `CalculateUsedPhasesFromVoltage.accept` as written: the number of the
      three voltages that pass the 32-bit test. */
  function UsedPhasesAsWritten(l1: Option<int>, l2: Option<int>, l3: Option<int>): (n: nat)
    requires IsInt32(Reading(l1)) && IsInt32(Reading(l2)) && IsInt32(Reading(l3))
    ensures n <= 3
    ensures n == 0 <==> !InUseAsWritten(Reading(l1)) && !InUseAsWritten(Reading(l2)) && !InUseAsWritten(Reading(l3))
    ensures n == 3 <==> InUseAsWritten(Reading(l1)) && InUseAsWritten(Reading(l2)) && InUseAsWritten(Reading(l3))
  {
    CountIf(InUseAsWritten(Reading(l1))) + CountIf(InUseAsWritten(Reading(l2))) + CountIf(InUseAsWritten(Reading(l3)))
  }

  /** The number of phases in use, as intended: the count of voltages within
      50 V of nominal. */
  function UsedPhases(l1: Option<int>, l2: Option<int>, l3: Option<int>): (n: nat)
    ensures n <= 3
    ensures n == 0 <==> !InUse(Reading(l1)) && !InUse(Reading(l2)) && !InUse(Reading(l3))
    ensures n == 3 <==> InUse(Reading(l1)) && InUse(Reading(l2)) && InUse(Reading(l3))
  {
    CountIf(InUse(Reading(l1))) + CountIf(InUse(Reading(l2))) + CountIf(InUse(Reading(l3)))
  }

  /** On every 32-bit voltage except the overflowing one, the count as
      written is the intended count. */
  lemma AsWrittenAgreesAwayFromOverflow(l1: Option<int>, l2: Option<int>, l3: Option<int>)
    requires IsInt32(Reading(l1)) && IsInt32(Reading(l2)) && IsInt32(Reading(l3))
    requires Reading(l1) != DefaultVoltage + IntMinValue
    requires Reading(l2) != DefaultVoltage + IntMinValue
    requires Reading(l3) != DefaultVoltage + IntMinValue
    ensures UsedPhasesAsWritten(l1, l2, l3) == UsedPhases(l1, l2, l3)
  {
    InUseAsWrittenWindow(Reading(l1));
    InUseAsWrittenWindow(Reading(l2));
    InUseAsWrittenWindow(Reading(l3));
    InUseWindow(Reading(l1));
    InUseWindow(Reading(l2));
    InUseWindow(Reading(l3));
  }

  /** An undefined voltage never counts. */
  lemma UndefinedNeverCounts(l2: Option<int>, l3: Option<int>)
    ensures UsedPhases(None, l2, l3) == CountIf(InUse(Reading(l2))) + CountIf(InUse(Reading(l3)))
    ensures UsedPhases(None, None, None) == 0
  {
  }

  /** The count does not depend on which phase is which. */
  lemma UsedPhasesSymmetric(l1: Option<int>, l2: Option<int>, l3: Option<int>)
    ensures UsedPhases(l1, l2, l3) == UsedPhases(l2, l1, l3)
    ensures UsedPhases(l1, l2, l3) == UsedPhases(l1, l3, l2)
    ensures UsedPhases(l1, l2, l3) == UsedPhases(l3, l2, l1)
  {
  }

  /** Three phases at nominal voltage count as three, one at nominal as one. */
  lemma NominalVoltage()
    ensures UsedPhases(Some(230), Some(230), Some(230)) == 3
    ensures UsedPhases(Some(230), Some(0), None) == 1
    ensures UsedPhases(Some(180), Some(280), Some(279)) == 1
  {
  }
}

/**
  The charging-state table of the Heidelberg wallbox and the processor that
  turns a reported state code into the plug and charging status, asking for
  the configuration to be re-applied when the wallbox leaves an error or
  undefined status.
 */
module HeidelbergState {
  import opened Common

  /** The plug of the wallbox. */
  datatype Plug = Undefined | Unplugged | Plugged

  /** `Plug.getValue` */
  function PlugValue(p: Plug): int {
    match p
    case Undefined => -1
    case Unplugged => 0
    case Plugged => 7
  }

  /** `Plug.isConnected`: only a plugged vehicle is connected. */
  function IsConnected(p: Plug): (b: bool)
    ensures b <==> p == Plugged
  {
    match p
    case Undefined => false
    case Unplugged => false
    case Plugged => true
  }

  /** The charging status of an EVCS; the enum belongs to the EVCS interface,
      only the names matter here. */
  datatype Status =
    | StatusUndefined | Starting | NotReadyForCharging | ReadyForCharging | Charging
    | Error | ChargingRejected | EnergyLimitReached | ChargingFinished

  /** The states the wallbox reports. */
  datatype ChargingState = A1 | B1 | C1 | A2 | B2 | C2 | DE | E | F | ER

  /** The code of each state. */
  function Value(s: ChargingState): (v: int)
    ensures 2 <= v <= 11
  {
    match s
    case A1 => 2
    case B1 => 4
    case C1 => 6
    case A2 => 3
    case B2 => 5
    case C2 => 7
    case DE => 8
    case E => 9
    case F => 10
    case ER => 11
  }

  function PlugOf(s: ChargingState): Plug {
    match s
    case A1 => Unplugged
    case B1 => Plugged
    case C1 => Plugged
    case A2 => Unplugged
    case B2 => Plugged
    case C2 => Plugged
    case DE => Undefined
    case E => Undefined
    case F => Undefined
    case ER => Undefined
  }

  function StatusOf(s: ChargingState): Status {
    match s
    case A1 => NotReadyForCharging
    case B1 => NotReadyForCharging
    case C1 => NotReadyForCharging
    case A2 => ReadyForCharging
    case B2 => ReadyForCharging
    case C2 => Charging
    case DE => Error
    case E => Error
    case F => Error
    case ER => Error
  }

  /** `getUndefined` */
  const UndefinedState: ChargingState := ER

  /** The lookup of a state by its code: `None` for a code of no state. */
  function FromValue(code: int): (r: Option<ChargingState>)
    ensures r.Some? <==> 2 <= code <= 11
    ensures r.Some? ==> Value(r.value) == code
  {
    if code == 2 then Some(A1)
    else if code == 3 then Some(A2)
    else if code == 4 then Some(B1)
    else if code == 5 then Some(B2)
    else if code == 6 then Some(C1)
    else if code == 7 then Some(C2)
    else if code == 8 then Some(DE)
    else if code == 9 then Some(E)
    else if code == 10 then Some(F)
    else if code == 11 then Some(ER)
    else None
  }

  /** Looking up a state's own code returns that state, so no two states
      share a code. */
  lemma ValueRoundTrip(s: ChargingState)
    ensures FromValue(Value(s)) == Some(s)
  {
  }

  lemma ValueInjective(s: ChargingState, t: ChargingState)
    ensures Value(s) == Value(t) ==> s == t
  {
    ValueRoundTrip(s);
    ValueRoundTrip(t);
  }

  /** The plug column: plugged in the B and C states, unplugged in the A
      states, undefined in the error states. */
  lemma PlugTable(s: ChargingState)
    ensures PlugOf(s) == Plugged <==> s in {B1, C1, B2, C2}
    ensures PlugOf(s) == Unplugged <==> s in {A1, A2}
    ensures PlugOf(s) == Undefined <==> 8 <= Value(s)
  {
  }

  /** The status column: charging only in C2, an error exactly for codes 8
      to 11, not ready in every "1" state, ready in A2 and B2. */
  lemma StatusTable(s: ChargingState)
    ensures StatusOf(s) == Charging <==> s == C2
    ensures StatusOf(s) == Error <==> 8 <= Value(s) <= 11
    ensures StatusOf(s) == NotReadyForCharging <==> s in {A1, B1, C1}
    ensures StatusOf(s) == ReadyForCharging <==> s in {A2, B2}
    ensures StatusOf(s) != StatusUndefined
  {
  }

  lemma UndefinedStateIsAnError()
    ensures StatusOf(UndefinedState) == Error && PlugOf(UndefinedState) == Undefined
  {
  }

  /** The state of a reported code; an undefined code has none. */
  function StateOf(code: Option<int>): (r: Option<ChargingState>)
    ensures r.Some? <==> code.Some? && 2 <= code.value <= 11
  {
    if code.None? then None else FromValue(code.value)
  }

  /** The next status: the state's status, or undefined for an unknown code. */
  function NextStatus(code: Option<int>): (st: Status)
    ensures StateOf(code).None? <==> st == StatusUndefined
    ensures StateOf(code).Some? ==> st == StatusOf(StateOf(code).value)
  {
    match StateOf(code)
    case None => StatusUndefined
    case Some(s) => StatusOf(s)
  }

  /** Whether `applyConfigurationNow` is called: the current status is an
      error or undefined, and the next status differs from it. */
  function Reconfigures(current: Status, next: Status): bool {
    (current == Error || current == StatusUndefined) && current != next
  }

  /** What one `accept` call does: whether it asks for the configuration to
      be re-applied, and the plug and status it sets, or `None` when it
      throws before setting them. */
  datatype Effects = Effects(reconfigure: bool, update: Option<(Plug, Status)>)

  /** `ChargingStateProcessor.accept` as written: the plug is taken from the
      looked-up state even when there is none, which throws. */
  function ProcessAsWritten(code: Option<int>, current: Status): (e: Effects)
    ensures e.reconfigure <==> (current == Error || current == StatusUndefined) && current != NextStatus(code)
    ensures e.update.None? <==> StateOf(code).None?
    ensures e.update.Some? ==> e.update.value == (PlugOf(StateOf(code).value), StatusOf(StateOf(code).value))
  {
    var next := NextStatus(code);
    var reconfigure := Reconfigures(current, next);
    match StateOf(code)
    case None => Effects(reconfigure, None)
    case Some(s) => Effects(reconfigure, Some((PlugOf(s), next)))
  }

  /** An unknown code from a charging wallbox: the status is never set to
      undefined, though the next status computed for it is. */
  lemma UnknownCodeThrows()
    ensures NextStatus(Some(12)) == StatusUndefined
    ensures ProcessAsWritten(Some(12), Charging).update.None?
  {
  }

  /** `accept` as intended: an unknown code sets the plug and the status to
      undefined. */
  function Process(code: Option<int>, current: Status): (e: Effects)
    ensures e.reconfigure <==> (current == Error || current == StatusUndefined) && current != NextStatus(code)
    ensures e.update.Some?
    ensures e.update.value.1 == NextStatus(code)
    ensures e.update.value.0 == Undefined <==> StateOf(code).None? || 8 <= code.value
    ensures StateOf(code).Some? ==> e.update.value.0 == PlugOf(StateOf(code).value)
  {
    var next := NextStatus(code);
    var plug := match StateOf(code) case None => Undefined case Some(s) => PlugOf(s);
    Effects(Reconfigures(current, next), Some((plug, next)))
  }

  /** On a known code both versions do the same. */
  lemma ProcessAgreesOnKnownCodes(code: Option<int>, current: Status)
    requires StateOf(code).Some?
    ensures ProcessAsWritten(code, current) == Process(code, current)
  {
  }

  /** From any status but error and undefined, no reconfiguration is asked. */
  lemma NoReconfigureWhileHealthy(code: Option<int>, current: Status)
    requires current != Error && current != StatusUndefined
    ensures !Process(code, current).reconfigure
    ensures !ProcessAsWritten(code, current).reconfigure
  {
  }

  /** Leaving an undefined status for any known state, or leaving an error
      for any state but an error, asks for the configuration to be re-applied. */
  lemma RecoveryReconfigures(code: Option<int>, current: Status)
    requires current == StatusUndefined ==> StateOf(code).Some?
    requires current == Error ==> StateOf(code).Some? ==> Value(StateOf(code).value) < 8
    requires current == Error || current == StatusUndefined
    ensures Process(code, current).reconfigure
  {
    if StateOf(code).Some? {
      StatusTable(StateOf(code).value);
    }
  }

  /** The status set is settled: the same code reported again asks for
      nothing. */
  lemma ProcessSettles(code: Option<int>, current: Status)
    ensures !Process(code, Process(code, current).update.value.1).reconfigure
  {
  }
}
