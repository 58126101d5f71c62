/**
  The Bestep relay board: four digital inputs and four relays. When the
  channel mapper is configured, every cycle copies each defined input to its
  relay, unless a write to that relay is already pending or the relay
  already shows the input's value. Channel values are `Option<bool>`, with
  `None` for an undefined value; a pending write is `Some` of the value.
 */
module IoBestep {
  import opened Common

  const Channels: nat := 4

  /** The events the component handles. */
  datatype Topic = CycleBeforeProcessImage | CycleExecuteWrite | OtherTopic

  /** The pending write of one relay after the mapper looked at it. A failed
      `setNextWriteValue` is logged and leaves the relay as it was. */
  function MappedWrite(pending: Option<bool>, input: Option<bool>, current: Option<bool>, rejected: bool)
    : (w: Option<bool>)
    ensures pending.Some? ==> w == pending
    ensures input.None? ==> w == pending
    ensures w != pending <==>
      pending.None? && input.Some? && current != input && !rejected
    ensures w != pending ==> w == input
  {
    if pending.Some? then pending
    else if input.None? then pending
    else if current.Some? && current.value == input.value then pending
    else if rejected then pending
    else input
  }

  /** The pending writes of all relays after the mapper ran. */
  function MappedWrites(pending: seq<Option<bool>>, inputs: seq<Option<bool>>, current: seq<Option<bool>>,
                        rejected: seq<bool>): (ws: seq<Option<bool>>)
    requires |pending| == |inputs| == |current| == |rejected|
    ensures |ws| == |pending|
    ensures forall i :: 0 <= i < |ws| ==> ws[i] == MappedWrite(pending[i], inputs[i], current[i], rejected[i])
  {
    seq(|pending|, i requires 0 <= i < |pending| => MappedWrite(pending[i], inputs[i], current[i], rejected[i]))
  }

  /** The debug symbols of a row of channels: `t` for true, `f` for false and
      `u` for undefined, one per channel. */
  function Symbols(values: seq<Option<bool>>, t: char, f: char, u: char): (s: string)
    ensures |s| == |values|
    ensures forall i :: 0 <= i < |values| ==>
      s[i] == (if values[i].None? then u else if values[i].value then t else f)
  {
    if values == [] then []
    else [if values[0].None? then u else if values[0].value then t else f] + Symbols(values[1..], t, f, u)
  }

  /** Reading a row of symbols back into channel values; `None` when a
      symbol is none of the three. */
  function ParseSymbols(s: string, t: char, f: char, u: char): (r: Option<seq<Option<bool>>>)
    ensures r.Some? ==> |r.value| == |s|
  {
    if s == [] then Some([])
    else
      var v := if s[0] == u then Some(None) else if s[0] == t then Some(Some(true))
               else if s[0] == f then Some(Some(false)) else None;
      var rest := ParseSymbols(s[1..], t, f, u);
      if v.None? || rest.None? then None else Some([v.value] + rest.value)
  }

  /** The symbols name the values: with three distinct symbols, reading the
      debug row back gives the channel values. */
  lemma {:induction false} SymbolsRoundTrip(values: seq<Option<bool>>, t: char, f: char, u: char)
    requires t != f && f != u && t != u
    ensures ParseSymbols(Symbols(values, t, f, u), t, f, u) == Some(values)
  {
    if values != [] {
      SymbolsRoundTrip(values[1..], t, f, u);
      assert Symbols(values, t, f, u)[1..] == Symbols(values[1..], t, f, u);
      assert [values[0]] + values[1..] == values;
    }
  }

  const OutputPrefix: string := "Output:"
  const InputPrefix: string := "|Input:"

  /** `debugLog`: the relays' current values as `X`, `-`, `?`, then the
      inputs as `I`, `O`, `?`. */
  function DebugLine(outputs: seq<Option<bool>>, inputs: seq<Option<bool>>): (s: string)
    requires |outputs| == |inputs| == Channels
    ensures |s| == 22
    ensures s[..7] == OutputPrefix && s[11..18] == InputPrefix
    ensures forall i :: 0 <= i < Channels ==>
      s[7 + i] == (if outputs[i].None? then '?' else if outputs[i].value then 'X' else '-')
    ensures forall i :: 0 <= i < Channels ==>
      s[18 + i] == (if inputs[i].None? then '?' else if inputs[i].value then 'I' else 'O')
  {
    OutputPrefix + Symbols(outputs, 'X', '-', '?') + InputPrefix + Symbols(inputs, 'I', 'O', '?')
  }

  /** The debug line determines the state it shows. */
  lemma DebugLineRoundTrip(outputs: seq<Option<bool>>, inputs: seq<Option<bool>>)
    requires |outputs| == |inputs| == Channels
    ensures ParseSymbols(DebugLine(outputs, inputs)[7..11], 'X', '-', '?') == Some(outputs)
    ensures ParseSymbols(DebugLine(outputs, inputs)[18..], 'I', 'O', '?') == Some(inputs)
  {
    var s := DebugLine(outputs, inputs);
    assert s[7..11] == Symbols(outputs, 'X', '-', '?');
    assert s[18..] == Symbols(inputs, 'I', 'O', '?');
    SymbolsRoundTrip(outputs, 'X', '-', '?');
    SymbolsRoundTrip(inputs, 'I', 'O', '?');
  }

  /** The component: the inputs and relays as the Modbus bridge last read
      them, and the relays' pending writes. */
  class Board {
    const inputs: array<Option<bool>>
    const outputs: array<Option<bool>>
    const pending: array<Option<bool>>
    var enabled: bool
    var channelMapper: bool

    ghost predicate Valid()
      reads this
    {
      inputs.Length == Channels && outputs.Length == Channels && pending.Length == Channels &&
      pending != inputs && pending != outputs
    }

    /** `activate`: no writes pending, the channels not yet read. */
    constructor (enabled: bool, channelMapper: bool)
      ensures Valid() && fresh(inputs) && fresh(outputs) && fresh(pending)
      ensures this.enabled == enabled && this.channelMapper == channelMapper
      ensures inputs[..] == outputs[..] == pending[..] == Fill(None, Channels)
    {
      this.enabled := enabled;
      this.channelMapper := channelMapper;
      inputs := new Option<bool>[Channels](_ => None);
      outputs := new Option<bool>[Channels](_ => None);
      pending := new Option<bool>[Channels](_ => None);
    }

    function DebugLog(): (s: string)
      requires Valid()
      reads this, inputs, outputs
      ensures s == DebugLine(outputs[..], inputs[..])
    {
      DebugLine(outputs[..], inputs[..])
    }

    /** `handleEvent`: nothing while disabled. `rejected[i]` says whether
        setting relay `i` fails. */
    method HandleEvent(topic: Topic, rejected: seq<bool>)
      requires Valid() && |rejected| == Channels
      modifies pending
      ensures !enabled || topic == OtherTopic ==> pending[..] == old(pending[..])
      ensures enabled && topic == CycleExecuteWrite ==> pending[..] == Fill(None, Channels)
      ensures enabled && topic == CycleBeforeProcessImage && !channelMapper ==> pending[..] == old(pending[..])
      ensures enabled && topic == CycleBeforeProcessImage && channelMapper ==>
        pending[..] == MappedWrites(old(pending[..]), inputs[..], outputs[..], rejected)
    {
      if !enabled {
        return;
      }
      match topic
      case CycleExecuteWrite =>
        ProcessTopicCycleExecuteWrite();
      case CycleBeforeProcessImage =>
        if channelMapper {
          RunChannelMapper(rejected);
        }
      case OtherTopic =>
    }

    /** Every pending relay write is taken and dropped. */
    method ProcessTopicCycleExecuteWrite()
      requires Valid()
      modifies pending
      ensures pending[..] == Fill(None, Channels)
    {
      for i := 0 to pending.Length
        invariant forall j :: 0 <= j < i ==> pending[j] == None
      {
        pending[i] := None;
      }
    }

    /** Copies each defined input to its relay, pair by pair. */
    method RunChannelMapper(rejected: seq<bool>)
      requires Valid() && |rejected| == Channels
      modifies pending
      ensures pending[..] == MappedWrites(old(pending[..]), inputs[..], outputs[..], rejected)
    {
      for i := 0 to inputs.Length
        invariant forall j :: 0 <= j < i ==>
          pending[j] == MappedWrite(old(pending[j]), inputs[j], outputs[j], rejected[j])
        invariant forall j :: i <= j < Channels ==> pending[j] == old(pending[j])
      {
        var nextWriteValue := pending[i];
        var currentValue := outputs[i];
        var inputValue := inputs[i];
        if nextWriteValue.Some? {
          continue;
        }
        if inputValue.None? {
          continue;
        }
        if currentValue.Some? && currentValue.value == inputValue.value {
          continue;
        }
        if !rejected[i] {
          pending[i] := inputValue;
        }
      }
    }
  }

  /** After one mapper run, running it again with the same readings changes
      nothing: every relay either already has a pending write or needs none. */
  lemma MapperIdempotent(pending: seq<Option<bool>>, inputs: seq<Option<bool>>, current: seq<Option<bool>>,
                         rejected: seq<bool>)
    requires |pending| == |inputs| == |current| == |rejected|
    ensures var once := MappedWrites(pending, inputs, current, rejected);
      MappedWrites(once, inputs, current, rejected) == once
  {
  }

  /** Once the relays show the inputs, the mapper asks for nothing. */
  lemma MirroredRelaysNeedNoWrite(inputs: seq<Option<bool>>, rejected: seq<bool>)
    requires |inputs| == |rejected|
    ensures MappedWrites(Fill(None, |inputs|), inputs, inputs, rejected) == Fill(None, |inputs|)
  {
  }

  /** A relay whose write went through and was executed shows its input, and
      the mapper leaves it alone from then on while the input stays. */
  lemma MappedRelayIsStable(input: Option<bool>, rejected: bool)
    ensures var w := MappedWrite(None, input, None, rejected);
      w.Some? ==> MappedWrite(None, input, w, rejected) == None
  {
  }
}
