/**
  Production management levels of paragraph 14a EnWG and the relay decoders
  that derive a level from the grid operator's control-box relays. A relay
  reading is `None` when its channel is undefined or unreadable.
 */
module ProductionLevels {
  import opened Common

  datatype ProductionManagment = Full | Reduced60 | Reduced30 | Off {

    /** Percentage of the hardware maximum that may be produced. */
    function Factor(): (f: int)
      ensures 0 <= f <= 100
      ensures f == 100 <==> this == Full
      ensures f == 0 <==> this == Off
    {
      match this
      case Full => 100
      case Reduced60 => 60
      case Reduced30 => 30
      case Off => 0
    }

    /** Whether a threshold has to be applied: every level but `Full` restricts. */
    predicate ApplyThreshold() {
      this != Full
    }

    /** The option value published on the channel. */
    function Value(): int {
      match this
      case Full => 3
      case Reduced60 => 2
      case Reduced30 => 1
      case Off => 0
    }
  }

  /** `getUndefined`: the level an undefined channel stands for. */
  function Undefined(): (p: ProductionManagment)
    ensures p.Factor() == 0
  {
    Off
  }

  /** Two relays, FNN 2-bit code. */
  function ForInputs2(e1: Option<bool>, e2: Option<bool>): ProductionManagment {
    if e1.None? || e2.None? then Off
    else if e1.value then (if e2.value then Off else Reduced30)
    else (if e2.value then Reduced60 else Full)
  }

  /** Three relays, one per restriction level, the first one has priority. */
  function ForInputs3(e1: Option<bool>, e2: Option<bool>, e3: Option<bool>): ProductionManagment {
    if e1.None? || e2.None? || e3.None? then Off
    else if e1.value then Off
    else if e2.value then Reduced30
    else if e3.value then Reduced60
    else Full
  }

  /** Four relays, one per level including full production. */
  function ForInputs4(e1: Option<bool>, e2: Option<bool>, e3: Option<bool>, e4: Option<bool>): ProductionManagment {
    if e1.None? || e2.None? || e3.None? || e4.None? then Off
    else if e1.value then Off
    else if e2.value then Reduced30
    else if e3.value then Reduced60
    else if e4.value then Full
    else Off
  }

  /** Any undefined relay makes every decoder fall back to `Off`. */
  lemma UndefinedInputGivesOff(e1: Option<bool>, e2: Option<bool>, e3: Option<bool>, e4: Option<bool>)
    requires e1.None? || e2.None?
    ensures ForInputs2(e1, e2) == Off
    ensures ForInputs3(e1, e2, e3) == Off
    ensures ForInputs4(e1, e2, e3, e4) == Off
    ensures ForInputs3(e3, e1, e2) == Off && ForInputs4(e3, e4, e1, e2) == Off
  {
  }

  /** The complete truth table of the 2-bit decoder; it is onto the four levels. */
  lemma TwoBitTable(p: ProductionManagment)
    ensures ForInputs2(Some(false), Some(false)) == Full
    ensures ForInputs2(Some(false), Some(true)) == Reduced60
    ensures ForInputs2(Some(true), Some(false)) == Reduced30
    ensures ForInputs2(Some(true), Some(true)) == Off
    ensures exists a: bool, b: bool :: ForInputs2(Some(a), Some(b)) == p
  {
    match p
    case Full => assert ForInputs2(Some(false), Some(false)) == p;
    case Reduced60 => assert ForInputs2(Some(false), Some(true)) == p;
    case Reduced30 => assert ForInputs2(Some(true), Some(false)) == p;
    case Off => assert ForInputs2(Some(true), Some(true)) == p;
  }

  /** Three relays: the first closed relay decides; all open means no restriction. */
  lemma ThreeRelayPriority(e1: bool, e2: bool, e3: bool)
    ensures e1 ==> ForInputs3(Some(e1), Some(e2), Some(e3)) == Off
    ensures !e1 && e2 ==> ForInputs3(Some(e1), Some(e2), Some(e3)) == Reduced30
    ensures !e1 && !e2 && e3 ==> ForInputs3(Some(e1), Some(e2), Some(e3)) == Reduced60
    ensures ForInputs3(Some(e1), Some(e2), Some(e3)) == Full <==> !e1 && !e2 && !e3
  {
  }

  /** Four relays: same priority, the fourth relay means full production and
      all four open means `Off` (unlike the three relay decoder). */
  lemma FourRelayPriority(e1: bool, e2: bool, e3: bool, e4: bool)
    ensures e1 ==> ForInputs4(Some(e1), Some(e2), Some(e3), Some(e4)) == Off
    ensures !e1 && e2 ==> ForInputs4(Some(e1), Some(e2), Some(e3), Some(e4)) == Reduced30
    ensures !e1 && !e2 && e3 ==> ForInputs4(Some(e1), Some(e2), Some(e3), Some(e4)) == Reduced60
    ensures ForInputs4(Some(e1), Some(e2), Some(e3), Some(e4)) == Full <==> !e1 && !e2 && !e3 && e4
    ensures !e1 && !e2 && !e3 && !e4 ==> ForInputs4(Some(e1), Some(e2), Some(e3), Some(e4)) == Off
    ensures ForInputs4(Some(e1), Some(e2), Some(e3), Some(false)) != Full
  {
  }
}

/**
  Consumption management levels. `Full` means the consumers are not restricted.
  Two variants of the 2-bit decoder exist in the repository, one written as an
  if-chain and one as a nested conditional; both are modelled.
 */
module ConsumptionLevels {
  import opened Common

  datatype ConsumptionManagment = Full | Reduced | Unused | Off {
    function Value(): int {
      match this
      case Full => 3
      case Reduced => 2
      case Unused => 1
      case Off => 0
    }
  }

  /** `getUndefined` */
  function Undefined(): (c: ConsumptionManagment)
    ensures c.Value() == 0
  {
    Off
  }

  /** A single contact: closed means no restriction, open or undefined means `Off`. */
  function ForInput(e1: Option<bool>): (c: ConsumptionManagment)
    ensures c == Full <==> e1 == Some(true)
    ensures c != Full ==> c == Off
  {
    if e1.None? then Off
    else if e1.value then Full else Off
  }

  /** The if-chain decoder; its final `throw` can not be reached, so no error
      outcome is needed. */
  function ForInputs(e1: Option<bool>, e2: Option<bool>): ConsumptionManagment {
    if e1.None? || e2.None? then Off
    else
      var a, b := e1.value, e2.value;
      if !a && !b then Full
      else if !a && b then Reduced
      else if a && !b then Unused
      else if a && b then Off
      else assert false; Off
  }

  /** The nested conditional decoder of the enum's copy in the
      `edge-controller-para14a` tree. */
  function ForInputsTernary(e1: Option<bool>, e2: Option<bool>): ConsumptionManagment {
    if e1.None? || e2.None? then Off
    else if e1.value then (if e2.value then Off else Unused)
    else (if e2.value then Reduced else Full)
  }

  /** The two decoders agree on all nine combinations of defined/undefined inputs. */
  lemma DecodersAgree(e1: Option<bool>, e2: Option<bool>)
    ensures ForInputs(e1, e2) == ForInputsTernary(e1, e2)
  {
  }

  /** An undefined input yields `Off`. */
  lemma UndefinedInputGivesOff(e1: Option<bool>, e2: Option<bool>)
    requires e1.None? || e2.None?
    ensures ForInputs(e1, e2) == Off && ForInputsTernary(e1, e2) == Off
  {
  }

  /** The truth table of the 2-bit code. */
  lemma TwoBitTable()
    ensures ForInputs(Some(false), Some(false)) == Full
    ensures ForInputs(Some(false), Some(true)) == Reduced
    ensures ForInputs(Some(true), Some(false)) == Unused
    ensures ForInputs(Some(true), Some(true)) == Off
  {
  }

  /** On defined inputs the 2-bit decoder is a bijection from the four input
      pairs onto the four levels. */
  lemma TwoBitBijection(a: bool, b: bool, c: bool, d: bool, level: ConsumptionManagment)
    ensures ForInputs(Some(a), Some(b)) == ForInputs(Some(c), Some(d)) ==> a == c && b == d
    ensures exists x: bool, y: bool :: ForInputs(Some(x), Some(y)) == level
  {
    match level
    case Full => assert ForInputs(Some(false), Some(false)) == level;
    case Reduced => assert ForInputs(Some(false), Some(true)) == level;
    case Unused => assert ForInputs(Some(true), Some(false)) == level;
    case Off => assert ForInputs(Some(true), Some(true)) == level;
  }
}

/**
  The wiring schemes of the control box and the dispatch that both controller
  variants run before every cycle (`mapRelaisInputsToManagementModes`).
 */
module RelaisMode {
  import opened Common
  import P = ProductionLevels
  import C = ConsumptionLevels

  datatype RelaisMode =
    | NoRelais            // `None`: no control box connected
    | FNN2bit1StbV
    | FNN2bit2StbV
    | FNN2bit1StbE
    | FNN2bit2StbE
    | FNN2bit1StbV1StbE
    | DreiRelais1StbE
    | VierRelais1StbE
    | Einzelkontakt4StbV

  /** The four relay readings, in input order. */
  datatype Relais = Relais(e1: Option<bool>, e2: Option<bool>, e3: Option<bool>, e4: Option<bool>)

  datatype Levels = Levels(production: P.ProductionManagment, consumption: C.ConsumptionManagment)

  /** The `switch (relaisMode)`: the new production and consumption levels,
      given the readings and the levels of the previous cycle (schemes that
      drive only one of the two levels keep the other one). */
  function Dispatch(mode: RelaisMode, r: Relais, previous: Levels): Levels {
    match mode
    case DreiRelais1StbE =>
      previous.(production := P.ForInputs3(r.e1, r.e2, r.e3))
    case Einzelkontakt4StbV =>
      previous.(consumption := C.ForInput(r.e1))
    case VierRelais1StbE =>
      previous.(production := P.ForInputs4(r.e1, r.e2, r.e3, r.e4))
    case FNN2bit1StbV =>
      Levels(P.Off, C.ForInputs(r.e1, r.e2))
    case FNN2bit2StbV =>
      Levels(P.Off, C.ForInputs(r.e1, r.e2))
    case FNN2bit1StbE =>
      Levels(P.ForInputs2(r.e1, r.e2), C.Off)
    case FNN2bit2StbE =>
      Levels(P.ForInputs2(r.e1, r.e2), C.Off)
    case FNN2bit1StbV1StbE =>
      Levels(P.ForInputs2(r.e3, r.e4), C.ForInputs(r.e1, r.e2))
    case NoRelais =>
      Levels(P.Off, C.Off)
  }

  /** Which schemes decide which level: a scheme that does not drive a level
      leaves it as it was; a scheme that drives a level ignores its previous
      value. */
  lemma DispatchFrame(mode: RelaisMode, r: Relais, previous: Levels, other: Levels)
    ensures mode in {DreiRelais1StbE, VierRelais1StbE} ==>
      Dispatch(mode, r, previous).consumption == previous.consumption
    ensures mode == Einzelkontakt4StbV ==>
      Dispatch(mode, r, previous).production == previous.production
    ensures mode !in {DreiRelais1StbE, VierRelais1StbE, Einzelkontakt4StbV} ==>
      Dispatch(mode, r, previous) == Dispatch(mode, r, other)
    ensures mode in {DreiRelais1StbE, VierRelais1StbE} ==>
      Dispatch(mode, r, previous).production == Dispatch(mode, r, other).production
    ensures mode == Einzelkontakt4StbV ==>
      Dispatch(mode, r, previous).consumption == Dispatch(mode, r, other).consumption
  {
  }

  /** Consumer-only schemes switch production off, producer-only schemes switch
      consumption off, no control box switches both off, and the combined
      scheme reads consumption from E1/E2 and production from E3/E4. */
  lemma DispatchRouting(mode: RelaisMode, r: Relais, previous: Levels)
    ensures mode in {FNN2bit1StbV, FNN2bit2StbV} ==>
      Dispatch(mode, r, previous).production == P.Off
    ensures mode in {FNN2bit1StbE, FNN2bit2StbE} ==>
      Dispatch(mode, r, previous).consumption == C.Off
    ensures mode == NoRelais ==>
      Dispatch(mode, r, previous) == Levels(P.Off, C.Off)
    ensures mode == FNN2bit1StbV1StbE ==>
      Dispatch(mode, r, previous) ==
      Dispatch(FNN2bit1StbV, r, previous).(production := Dispatch(FNN2bit1StbE, Relais(r.e3, r.e4, r.e1, r.e2), previous).production)
  {
  }

  /** Fail-safe: when every relay is undefined, every level the scheme drives is `Off`. */
  lemma AllUndefinedIsOff(mode: RelaisMode, previous: Levels)
    ensures var l := Dispatch(mode, Relais(None, None, None, None), previous);
      (l.production == P.Off || l.production == previous.production) &&
      (l.consumption == C.Off || l.consumption == previous.consumption)
    ensures mode !in {DreiRelais1StbE, VierRelais1StbE, Einzelkontakt4StbV} ==>
      Dispatch(mode, Relais(None, None, None, None), previous) == Levels(P.Off, C.Off)
  {
  }
}
