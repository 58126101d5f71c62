/**
  The register-to-channel table of the B+G DS100 meter. Each of the sixteen
  energy registers (total and per phase, forward and reverse, active and
  reactive) names the channel it fills normally and the one it fills when
  the meter is mounted inverted.
 */
module ChannelMappings {

  datatype Flow = Production | Consumption
  datatype Kind = Active | Reactive
  datatype Phase = Total | L1 | L2 | L3

  /** An energy channel of the meter: `ACTIVE_PRODUCTION_ENERGY_L1`, say, is
      `Energy(Production, Active, L1)`. The active channels belong to the
      electricity-meter interface, the reactive ones to the meter itself. */
  datatype ChannelId = Energy(flow: Flow, kind: Kind, phase: Phase)

  datatype Direction = Forward | Reverse

  /** The registers; `APhase`, `BPhase` and `CPhase` are L1, L2 and L3. */
  datatype Mapping =
    | TotalForwardActiveEnergy | TotalReverseActiveEnergy
    | TotalForwardReactiveEnergy | TotalReverseReactiveEnergy
    | APhaseForwardActiveEnergy | APhaseReverseActiveEnergy
    | APhaseForwardReactiveEnergy | APhaseReverseReactiveEnergy
    | BPhaseForwardActiveEnergy | BPhaseReverseActiveEnergy
    | BPhaseForwardReactiveEnergy | BPhaseReverseReactiveEnergy
    | CPhaseForwardActiveEnergy | CPhaseReverseActiveEnergy
    | CPhaseForwardReactiveEnergy | CPhaseReverseReactiveEnergy

  /** What each register's name says it measures. */
  function Register(m: Mapping): (Phase, Direction, Kind) {
    match m
    case TotalForwardActiveEnergy => (Total, Forward, Active)
    case TotalReverseActiveEnergy => (Total, Reverse, Active)
    case TotalForwardReactiveEnergy => (Total, Forward, Reactive)
    case TotalReverseReactiveEnergy => (Total, Reverse, Reactive)
    case APhaseForwardActiveEnergy => (L1, Forward, Active)
    case APhaseReverseActiveEnergy => (L1, Reverse, Active)
    case APhaseForwardReactiveEnergy => (L1, Forward, Reactive)
    case APhaseReverseReactiveEnergy => (L1, Reverse, Reactive)
    case BPhaseForwardActiveEnergy => (L2, Forward, Active)
    case BPhaseReverseActiveEnergy => (L2, Reverse, Active)
    case BPhaseForwardReactiveEnergy => (L2, Forward, Reactive)
    case BPhaseReverseReactiveEnergy => (L2, Reverse, Reactive)
    case CPhaseForwardActiveEnergy => (L3, Forward, Active)
    case CPhaseReverseActiveEnergy => (L3, Reverse, Active)
    case CPhaseForwardReactiveEnergy => (L3, Forward, Reactive)
    case CPhaseReverseReactiveEnergy => (L3, Reverse, Reactive)
  }

  /** The two constructor arguments of each register: the channel, then the
      inverted channel. */
  function Arguments(m: Mapping): (ChannelId, ChannelId) {
    match m
    case TotalForwardActiveEnergy => (Energy(Production, Active, Total), Energy(Consumption, Active, Total))
    case TotalReverseActiveEnergy => (Energy(Consumption, Active, Total), Energy(Production, Active, Total))
    case TotalForwardReactiveEnergy => (Energy(Production, Reactive, Total), Energy(Consumption, Reactive, Total))
    case TotalReverseReactiveEnergy => (Energy(Consumption, Reactive, Total), Energy(Production, Reactive, Total))
    case APhaseForwardActiveEnergy => (Energy(Production, Active, L1), Energy(Consumption, Active, L1))
    case APhaseReverseActiveEnergy => (Energy(Consumption, Active, L1), Energy(Production, Active, L1))
    case APhaseForwardReactiveEnergy => (Energy(Production, Reactive, L1), Energy(Consumption, Reactive, L1))
    case APhaseReverseReactiveEnergy => (Energy(Consumption, Reactive, L1), Energy(Production, Reactive, L1))
    case BPhaseForwardActiveEnergy => (Energy(Production, Active, L2), Energy(Consumption, Active, L2))
    case BPhaseReverseActiveEnergy => (Energy(Consumption, Active, L2), Energy(Production, Active, L2))
    case BPhaseForwardReactiveEnergy => (Energy(Production, Reactive, L2), Energy(Consumption, Reactive, L2))
    case BPhaseReverseReactiveEnergy => (Energy(Consumption, Reactive, L2), Energy(Production, Reactive, L2))
    case CPhaseForwardActiveEnergy => (Energy(Production, Active, L3), Energy(Consumption, Active, L3))
    case CPhaseReverseActiveEnergy => (Energy(Consumption, Active, L3), Energy(Production, Active, L3))
    case CPhaseForwardReactiveEnergy => (Energy(Production, Reactive, L3), Energy(Consumption, Reactive, L3))
    case CPhaseReverseReactiveEnergy => (Energy(Consumption, Reactive, L3), Energy(Production, Reactive, L3))
  }

  /** `channelId(inverted)` */
  function ChannelIdOf(m: Mapping, inverted: bool): ChannelId {
    if inverted then Arguments(m).1 else Arguments(m).0
  }

  /** The flow a direction means: forward energy is production, unless the
      meter is inverted. */
  function FlowOf(d: Direction, inverted: bool): (f: Flow)
    ensures f == Production <==> (d == Forward) != inverted
  {
    if (d == Forward) != inverted then Production else Consumption
  }

  /** The register of the same phase and kind in the other direction. */
  function Partner(m: Mapping): (p: Mapping)
    ensures Register(p).0 == Register(m).0 && Register(p).2 == Register(m).2
    ensures Register(p).1 != Register(m).1
  {
    match m
    case TotalForwardActiveEnergy => TotalReverseActiveEnergy
    case TotalReverseActiveEnergy => TotalForwardActiveEnergy
    case TotalForwardReactiveEnergy => TotalReverseReactiveEnergy
    case TotalReverseReactiveEnergy => TotalForwardReactiveEnergy
    case APhaseForwardActiveEnergy => APhaseReverseActiveEnergy
    case APhaseReverseActiveEnergy => APhaseForwardActiveEnergy
    case APhaseForwardReactiveEnergy => APhaseReverseReactiveEnergy
    case APhaseReverseReactiveEnergy => APhaseForwardReactiveEnergy
    case BPhaseForwardActiveEnergy => BPhaseReverseActiveEnergy
    case BPhaseReverseActiveEnergy => BPhaseForwardActiveEnergy
    case BPhaseForwardReactiveEnergy => BPhaseReverseReactiveEnergy
    case BPhaseReverseReactiveEnergy => BPhaseForwardReactiveEnergy
    case CPhaseForwardActiveEnergy => CPhaseReverseActiveEnergy
    case CPhaseReverseActiveEnergy => CPhaseForwardActiveEnergy
    case CPhaseForwardReactiveEnergy => CPhaseReverseReactiveEnergy
    case CPhaseReverseReactiveEnergy => CPhaseForwardReactiveEnergy
  }

  /** Every register fills the channel of its own phase and kind, with the
      flow its direction means: inversion swaps production and consumption
      and nothing else. */
  lemma ChannelMatchesRegister(m: Mapping, inverted: bool)
    ensures ChannelIdOf(m, inverted) == Energy(FlowOf(Register(m).1, inverted), Register(m).2, Register(m).0)
  {
  }

  /** A forward register inverted fills what its reverse partner fills
      normally, and the other way round. */
  lemma PartnersSwapOnInversion(m: Mapping, inverted: bool)
    ensures ChannelIdOf(m, inverted) == ChannelIdOf(Partner(m), !inverted)
  {
    ChannelMatchesRegister(m, inverted);
    ChannelMatchesRegister(Partner(m), !inverted);
  }

  /** The registers are told apart by what they measure. */
  lemma RegisterInjective(m: Mapping, n: Mapping)
    ensures Register(m) == Register(n) ==> m == n
  {
  }

  /** Whether inverted or not, no two registers fill the same channel. */
  lemma ChannelsDistinct(m: Mapping, n: Mapping, inverted: bool)
    ensures ChannelIdOf(m, inverted) == ChannelIdOf(n, inverted) ==> m == n
  {
    ChannelMatchesRegister(m, inverted);
    ChannelMatchesRegister(n, inverted);
    RegisterInjective(m, n);
  }

  /** Whether inverted or not, every energy channel is filled by some
      register. */
  lemma EveryChannelFilled(c: ChannelId, inverted: bool)
    ensures exists m :: ChannelIdOf(m, inverted) == c
  {
    var d := if (c.flow == Production) != inverted then Forward else Reverse;
    var m :| Register(m) == (c.phase, d, c.kind) by {
      var phase, kind := c.phase, c.kind;
      assert exists m :: Register(m) == (phase, d, kind) by {
        match (phase, d, kind)
        case (Total, Forward, Active) => assert Register(TotalForwardActiveEnergy) == (phase, d, kind);
        case (Total, Reverse, Active) => assert Register(TotalReverseActiveEnergy) == (phase, d, kind);
        case (Total, Forward, Reactive) => assert Register(TotalForwardReactiveEnergy) == (phase, d, kind);
        case (Total, Reverse, Reactive) => assert Register(TotalReverseReactiveEnergy) == (phase, d, kind);
        case (L1, Forward, Active) => assert Register(APhaseForwardActiveEnergy) == (phase, d, kind);
        case (L1, Reverse, Active) => assert Register(APhaseReverseActiveEnergy) == (phase, d, kind);
        case (L1, Forward, Reactive) => assert Register(APhaseForwardReactiveEnergy) == (phase, d, kind);
        case (L1, Reverse, Reactive) => assert Register(APhaseReverseReactiveEnergy) == (phase, d, kind);
        case (L2, Forward, Active) => assert Register(BPhaseForwardActiveEnergy) == (phase, d, kind);
        case (L2, Reverse, Active) => assert Register(BPhaseReverseActiveEnergy) == (phase, d, kind);
        case (L2, Forward, Reactive) => assert Register(BPhaseForwardReactiveEnergy) == (phase, d, kind);
        case (L2, Reverse, Reactive) => assert Register(BPhaseReverseReactiveEnergy) == (phase, d, kind);
        case (L3, Forward, Active) => assert Register(CPhaseForwardActiveEnergy) == (phase, d, kind);
        case (L3, Reverse, Active) => assert Register(CPhaseReverseActiveEnergy) == (phase, d, kind);
        case (L3, Forward, Reactive) => assert Register(CPhaseForwardReactiveEnergy) == (phase, d, kind);
        case (L3, Reverse, Reactive) => assert Register(CPhaseReverseReactiveEnergy) == (phase, d, kind);
      }
    }
    ChannelMatchesRegister(m, inverted);
  }
}
