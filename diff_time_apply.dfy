/**
  `DiffTimeApply`: forwards a value to `accept` only when it differs from the
  last accepted value by more than a threshold, or when the refresh deadline
  has passed. Times are instants in nanoseconds, passed in by the caller;
  `Instant.MIN`, the initial deadline, is `None`. The call to the abstract
  `accept` is modelled by the values it receives and by whether it throws.
 */
module DiffTimeApply {
  import opened Common

  /** The timeout, in seconds, when the caller gives none. */
  const DefaultTimeout: int := 30
  const NanosPerSecond: int := 1_000_000_000

  function AbsReal(x: real): real { if x < 0.0 then -x else x }

  /** The result of one `nextValue` call. */
  datatype Outcome =
    | Skipped      // neither condition held: `accept` was not called
    | Applied      // `accept` returned normally
    | Rejected     // `accept` threw; the exception reaches the caller

  /** Whether `nextValue` calls `accept`: the first value always, afterwards a
      value that moved by strictly more than `compareDiff`, or any value once
      `now` is strictly after the deadline. */
  function Applies(now: int, nextTimeoutAt: Option<int>, current: Option<real>, next: real, compareDiff: real): (b: bool)
    ensures current.None? ==> b
    ensures nextTimeoutAt.None? ==> b
    ensures nextTimeoutAt.Some? && now > nextTimeoutAt.value ==> b
    ensures current.Some? && AbsReal(next - current.value) > compareDiff ==> b
    ensures current.Some? && nextTimeoutAt.Some? && now <= nextTimeoutAt.value ==>
      (b <==> AbsReal(next - current.value) > compareDiff)
  {
    var timeApply := nextTimeoutAt.None? || now > nextTimeoutAt.value;
    var diffApply := current.None? || AbsReal(next - current.value) > compareDiff;
    diffApply || timeApply
  }

  /** The deadline set when a value is applied: `ceilDiv(timeout, 2)` seconds from now. */
  function NextDeadline(now: int, timeoutValue: Option<int>): (d: int)
    ensures timeoutValue.None? ==> d == now + 15 * NanosPerSecond
    ensures timeoutValue.Some? && 0 <= timeoutValue.value ==>
      now + timeoutValue.value * NanosPerSecond / 2 <= d < now + timeoutValue.value * NanosPerSecond / 2 + NanosPerSecond
  {
    now + CeilDiv(timeoutValue.GetOr(DefaultTimeout), 2) * NanosPerSecond
  }

  /** The state of one instance, and every value `accept` took without
      throwing, in order. */
  datatype State = State(nextTimeoutAt: Option<int>, currentValue: Option<real>, accepted: seq<real>)

  /** The last value `accept` took is the current value, and there is a
      deadline exactly when there is a current value. */
  predicate ValidState(s: State) {
    (s.currentValue.None? <==> s.nextTimeoutAt.None?) &&
    (s.currentValue.Some? ==> s.accepted != [] && s.currentValue.value == s.accepted[|s.accepted| - 1])
  }

  /** One `nextValue` call: `accept` is called when `Applies` holds; when it
      returns normally the value becomes current and a new deadline is set;
      when it throws, or is not called, nothing changes. */
  function Step(s: State, compareDiff: real, timeoutValue: Option<int>, next: real, now: int, acceptThrows: bool)
    : (r: (State, Outcome))
    ensures r.1 == Skipped <==> !Applies(now, s.nextTimeoutAt, s.currentValue, next, compareDiff)
    ensures r.1 != Skipped ==> (r.1 == Rejected <==> acceptThrows)
    ensures r.1 == Applied ==>
      r.0 == State(Some(NextDeadline(now, timeoutValue)), Some(next), s.accepted + [next])
    ensures r.1 != Applied ==> r.0 == s
    ensures ValidState(s) ==> ValidState(r.0)
  {
    if !Applies(now, s.nextTimeoutAt, s.currentValue, next, compareDiff) then (s, Skipped)
    else if acceptThrows then (s, Rejected)
    else (State(Some(NextDeadline(now, timeoutValue)), Some(next), s.accepted + [next]), Applied)
  }

  class DiffTimeApply {
    const compareDiff: real
    var nextTimeoutAt: Option<int>
    var currentValue: Option<real>
    /** every value `accept` took without throwing, in order */
    var accepted: seq<real>

    function StateOf(): State
      reads this
    {
      State(nextTimeoutAt, currentValue, accepted)
    }

    ghost predicate Valid()
      reads this
    {
      ValidState(StateOf())
    }

    constructor (compareDiff: real)
      ensures Valid()
      ensures this.compareDiff == compareDiff
      ensures StateOf() == State(None, None, [])
    {
      this.compareDiff := compareDiff;
      nextTimeoutAt := None;
      currentValue := None;
      accepted := [];
    }

    /** `nextValue(timeoutValue, nextValue)` at the instant `now`; `acceptThrows`
        says whether `accept` fails for this value. */
    method NextValue(timeoutValue: Option<int>, next: real, now: int, acceptThrows: bool)
      returns (outcome: Outcome)
      requires Valid()
      modifies this
      ensures Valid()
      ensures (StateOf(), outcome) == Step(old(StateOf()), compareDiff, timeoutValue, next, now, acceptThrows)
    {
      var timeout := timeoutValue.GetOr(DefaultTimeout);
      var timeApply := nextTimeoutAt.None? || now > nextTimeoutAt.value;
      var diffApply := currentValue.None? || AbsReal(next - currentValue.value) > compareDiff;
      if !(diffApply || timeApply) {
        return Skipped;
      }
      if acceptThrows {
        return Rejected;
      }
      accepted := accepted + [next];
      nextTimeoutAt := Some(now + CeilDiv(timeout, 2) * NanosPerSecond);
      currentValue := Some(next);
      outcome := Applied;
    }
  }

  /** Right after a value was applied at `t`, a value that moved by at most
      `compareDiff` is held back until the deadline has passed, and goes
      through at any instant after it. */
  lemma RefreshPeriod(t: int, timeoutValue: Option<int>, applied: real, next: real, compareDiff: real, now: int)
    requires AbsReal(next - applied) <= compareDiff
    ensures Applies(now, Some(NextDeadline(t, timeoutValue)), Some(applied), next, compareDiff)
      <==> now > NextDeadline(t, timeoutValue)
  {
  }

  /** Without a timeout the refresh period is 15 seconds: a repeated value is
      re-applied first at an instant strictly later than `t + 15 s`. */
  lemma DefaultRefreshPeriod(t: int, applied: real, compareDiff: real, now: int)
    requires 0.0 <= compareDiff
    ensures Applies(now, Some(NextDeadline(t, None)), Some(applied), applied, compareDiff)
      <==> now > t + 15 * NanosPerSecond
  {
  }

  /** The threshold is strict: a change of exactly `compareDiff` before the
      deadline is not applied. */
  lemma ThresholdIsStrict(now: int, deadline: int, current: real, compareDiff: real)
    requires now <= deadline && 0.0 <= compareDiff
    ensures !Applies(now, Some(deadline), Some(current), current + compareDiff, compareDiff)
    ensures !Applies(now, Some(deadline), Some(current), current - compareDiff, compareDiff)
  {
  }

  /** Every value in `s` lies within `[low, high]`. */
  predicate AllWithin(s: seq<real>, low: real, high: real) {
    forall i :: 0 <= i < |s| ==> low <= s[i] <= high
  }

  /** Values offered only from `[low, high]` keep every accepted value there. */
  lemma StepKeepsAcceptedWithin(s: State, compareDiff: real, timeoutValue: Option<int>, next: real, now: int,
                                acceptThrows: bool, low: real, high: real)
    requires AllWithin(s.accepted, low, high) && low <= next <= high
    ensures AllWithin(Step(s, compareDiff, timeoutValue, next, now, acceptThrows).0.accepted, low, high)
  {
  }

  /** A fresh instance applies its first value, whatever the time. */
  lemma FirstValueApplies(now: int, next: real, compareDiff: real)
    ensures Applies(now, None, None, next, compareDiff)
  {
  }
}
