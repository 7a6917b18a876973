/**
  One round of observation: two probes run beside the read of the provider's
  state. The two goroutines and the caller share the observed addresses, the
  two probe errors and the cause of cancellation; every interleaving of their
  writes is a schedule below.
*/
module Collect {
  import opened Wrappers
  import opened Retry
  import opened Provider

  /** A probe answers with an address, with none, or fails. */
  type ProbeResult = Result<Option<string>, Error>

  datatype ObservedState = ObservedState(
    ipv4: Option<string>, ipv6: Option<string>, ipv4Observed: bool, ipv6Observed: bool)
  {
    function Families(): Families {
      ObservedFamilies(ipv4Observed, ipv6Observed)
    }
  }

  const NOTHING_OBSERVED := ObservedState(None, None, false, false)

  datatype Outcome = Collected(observed: ObservedState, current: State) | Failed(error: Error)

  // ----- errors of a round -----

  function ErrorOf<T>(r: Result<T, Error>): Option<Error> {
    if r.Ok? then None else Some(r.error)
  }

  function SingleProbeError(family: string, err: Error): Error {
    var wrapped := Wrap(family + " probe failed", err);
    match After(err)
    case None => wrapped
    case Some(retryAfter) => Mark(wrapped, retryAfter)
  }

  function BothProbesError(ipv4Err: Error, ipv6Err: Error): Error {
    var combined := Wrap("all egress probes failed", Join([Wrap("IPv4 probe", ipv4Err), Wrap("IPv6 probe", ipv6Err)]));
    var ipv4After, ipv6After := After(ipv4Err), After(ipv6Err);
    if ipv4After.Some? && ipv6After.Some? then
      Mark(combined, if ipv6After.value > ipv4After.value then ipv6After.value else ipv4After.value)
    else combined
  }

  function CollectProbeError(
    cause: Option<Error>, ipv4Err: Option<Error>, ipv6Err: Option<Error>, allowPartialFailure: bool): Option<Error>
  {
    if cause.Some? then Some(Wrap("probe context canceled", cause.value))
    else if ipv4Err.None? && ipv6Err.None? then None
    else if ipv4Err.Some? && ipv6Err.Some? then Some(BothProbesError(ipv4Err.value, ipv6Err.value))
    else if allowPartialFailure then None
    else if ipv4Err.Some? then Some(SingleProbeError("IPv4", ipv4Err.value))
    else Some(SingleProbeError("IPv6", ipv6Err.value))
  }

  function Clamped(d: Duration): Duration {
    if d < 0 then 0 else d
  }

  /** A single failed probe is retried exactly when its error is, after the same delay. */
  lemma SingleProbeRetry(family: string, err: Error)
    ensures After(SingleProbeError(family, err)) ==
      if After(err).None? then None else Some(Clamped(After(err).value))
  {
  }

  /**
    Two failed probes are marked again only when both are retryable, but the
    search reaches the marks below the join: one retryable probe is enough for
    a retry, and with one mark its delay is the one used.
  */
  lemma BothProbesRetry(ipv4Err: Error, ipv6Err: Error)
    ensures var a, b := After(ipv4Err), After(ipv6Err);
      After(BothProbesError(ipv4Err, ipv6Err)) ==
        if a.None? then b else if b.None? then a
        else Some(Clamped(if b.value > a.value then b.value else a.value))
  {
    var fours, sixes := Wrap("IPv4 probe", ipv4Err), Wrap("IPv6 probe", ipv6Err);
    assert [fours, sixes][1..] == [sixes] && [sixes][1..] == [];
    assert AfterAny([sixes]) == After(sixes) == After(ipv6Err);
    assert AfterAny([fours, sixes]) == if After(ipv4Err).Some? then After(ipv4Err) else After(ipv6Err);
  }

  /** One retryable probe of two: the guard fails, and the run is retried all the same. */
  lemma OneRetryableProbe()
    ensures var err := BothProbesError(Mark(Leaf("busy"), 5), Leaf("refused"));
      After(Leaf("refused")).None? && !err.Retryable? && After(err) == Some(5)
  {
    BothProbesRetry(Mark(Leaf("busy"), 5), Leaf("refused"));
  }

  // ----- the sequential account -----

  function Observation(ipv4: ProbeResult, ipv6: ProbeResult): ObservedState {
    ObservedState(if ipv4.Ok? then ipv4.value else None, if ipv6.Ok? then ipv6.value else None, ipv4.Ok?, ipv6.Ok?)
  }

  /** What the three calls answer, and the settings of the round. */
  datatype Inputs = Inputs(
    ipv4: ProbeResult, ipv6: ProbeResult, read: Result<State, Error>, parentCause: Error, allowPartialFailure: bool)

  function ReadError(err: Error): Error {
    Wrap("read current provider state", err)
  }

  /** The outcome of a round, from the three answers and whether the parent was cancelled before the decision. */
  function CollectOutcome(inputs: Inputs, cancelled: bool): Outcome {
    if inputs.read.Err? then Failed(ReadError(inputs.read.error))
    else
      var err := CollectProbeError(if cancelled then Some(inputs.parentCause) else None,
                                   ErrorOf(inputs.ipv4), ErrorOf(inputs.ipv6), inputs.allowPartialFailure);
      if err.Some? then Failed(err.value)
      else Collected(Observation(inputs.ipv4, inputs.ipv6), inputs.read.value)
  }

  /** The delay a failed probe asks for, if it may be retried; never less than none. */
  ghost function Asked(err: Error): Option<Duration> {
    if Marks(err) == [] then None else Some(if Marks(err)[0] < 0 then 0 else Marks(err)[0])
  }

  ghost function MarkKept(err: Error): Option<Duration> {
    if Marks(err) == [] then None else Some(Marks(err)[0])
  }

  /**
    What a round without a failed read asks for: the mark of the cancellation, or
    of the probes that fail it. Of two marks the longer delay counts; one is enough.
  */
  ghost function AskedByProbes(
    cause: Option<Error>, ipv4: ProbeResult, ipv6: ProbeResult, allowPartialFailure: bool): Option<Duration>
  {
    if cause.Some? then if Marks(cause.value) == [] then None else Some(Marks(cause.value)[0])
    else if ipv4.Err? && ipv6.Err? then
      var four, six := Asked(ipv4.error), Asked(ipv6.error);
      if four.None? then MarkKept(ipv6.error) else if six.None? then MarkKept(ipv4.error)
      else if six.value > four.value then six else four
    else if allowPartialFailure || (ipv4.Ok? && ipv6.Ok?) then None
    else Asked(if ipv4.Err? then ipv4.error else ipv6.error)
  }

  /** Both probes answered, or one of them where that will do. */
  ghost predicate Enough(ipv4: ProbeResult, ipv6: ProbeResult, allowPartialFailure: bool) {
    (ipv4.Ok? && ipv6.Ok?) || (allowPartialFailure && (ipv4.Ok? || ipv6.Ok?))
  }

  lemma WrapKeepsMark(text: string, err: Error)
    ensures After(Wrap(text, err)) == After(err)
    ensures MarkKept(Wrap(text, err)) == MarkKept(err)
  {
  }

  /** A round fails for the read, for a cancellation, or for its probes, and the error asks for what they ask for. */
  lemma FailureMeans(inputs: Inputs, cancelled: bool)
    ensures var cause := if cancelled then Some(inputs.parentCause) else None;
      var outcome := CollectOutcome(inputs, cancelled);
      && (outcome.Collected? <==>
            inputs.read.Ok? && !cancelled && Enough(inputs.ipv4, inputs.ipv6, inputs.allowPartialFailure))
      && (outcome.Failed? && inputs.read.Err? ==> MarkKept(outcome.error) == MarkKept(inputs.read.error))
      && (outcome.Failed? && inputs.read.Ok? ==>
            MarkKept(outcome.error) == AskedByProbes(cause, inputs.ipv4, inputs.ipv6, inputs.allowPartialFailure))
      && (outcome.Collected? ==>
            && outcome.observed.ipv4 == (if inputs.ipv4.Ok? then inputs.ipv4.value else None)
            && outcome.observed.ipv6 == (if inputs.ipv6.Ok? then inputs.ipv6.value else None)
            && outcome.observed.ipv4Observed == inputs.ipv4.Ok? && outcome.observed.ipv6Observed == inputs.ipv6.Ok?)
  {
    hide After, Marks, Mark;
    var outcome := CollectOutcome(inputs, cancelled);
    if outcome.Failed? {
      AfterIsFirstMark(outcome.error);
      if inputs.read.Err? {
        AfterIsFirstMark(inputs.read.error);
        WrapKeepsMark("read current provider state", inputs.read.error);
      } else if cancelled {
        AfterIsFirstMark(inputs.parentCause);
        WrapKeepsMark("probe context canceled", inputs.parentCause);
      } else if inputs.ipv4.Err? && inputs.ipv6.Err? {
        AfterIsFirstMark(inputs.ipv4.error);
        AfterIsFirstMark(inputs.ipv6.error);
        BothProbesRetry(inputs.ipv4.error, inputs.ipv6.error);
      } else if inputs.ipv4.Err? {
        AfterIsFirstMark(inputs.ipv4.error);
        SingleProbeRetry("IPv4", inputs.ipv4.error);
      } else {
        AfterIsFirstMark(inputs.ipv6.error);
        SingleProbeRetry("IPv6", inputs.ipv6.error);
      }
    }
  }

  // ----- the interleaved account -----

  /** How far a probe's goroutine has come: its writes happen one at a time. */
  datatype Goroutine = Looking | ErrorStored | AddressStored | FlagStored | Done

  datatype Caller = Reading | Waiting | Returned

  datatype System = System(
    four: Goroutine, six: Goroutine, caller: Caller,
    ipv4Err: Option<Error>, ipv6Err: Option<Error>, observed: ObservedState,
    cause: Option<Error>, current: State, outcome: Option<Outcome>)

  datatype Action = Four | Six | Call | CancelParent

  const START := System(Looking, Looking, Reading, None, None, NOTHING_OBSERVED, None, State("", []), None)

  function Next(g: Goroutine, r: ProbeResult): Goroutine {
    match g
    case Looking => ErrorStored
    case ErrorStored => if r.Ok? then AddressStored else Done
    case AddressStored => FlagStored
    case FlagStored => Done
    case Done => Done
  }

  function Step(inputs: Inputs, s: System, a: Action): System {
    match a
    case Four =>
      var moved := s.(four := Next(s.four, inputs.ipv4));
      (match s.four
       case Looking => moved.(ipv4Err := ErrorOf(inputs.ipv4))
       case ErrorStored =>
         if inputs.ipv4.Ok? then moved.(observed := s.observed.(ipv4 := inputs.ipv4.value)) else moved
       case AddressStored => moved.(observed := s.observed.(ipv4Observed := true))
       case _ => moved)
    case Six =>
      var moved := s.(six := Next(s.six, inputs.ipv6));
      (match s.six
       case Looking => moved.(ipv6Err := ErrorOf(inputs.ipv6))
       case ErrorStored =>
         if inputs.ipv6.Ok? then moved.(observed := s.observed.(ipv6 := inputs.ipv6.value)) else moved
       case AddressStored => moved.(observed := s.observed.(ipv6Observed := true))
       case _ => moved)
    case Call =>
      (match s.caller
       case Reading =>
         if inputs.read.Ok? then s.(current := inputs.read.value, caller := Waiting)
         else
           var err := ReadError(inputs.read.error);
           s.(cause := if s.cause.None? then Some(err) else s.cause, outcome := Some(Failed(err)), caller := Returned)
       case Waiting =>
         if s.four != Done || s.six != Done then s
         else
           var err := CollectProbeError(s.cause, s.ipv4Err, s.ipv6Err, inputs.allowPartialFailure);
           var outcome := if err.Some? then Failed(err.value) else Collected(s.observed, s.current);
           s.(caller := Returned, outcome := Some(outcome))
       case Returned => s)
    case CancelParent => s.(cause := if s.cause.None? then Some(inputs.parentCause) else s.cause)
  }

  function Exec(inputs: Inputs, schedule: seq<Action>): System {
    if schedule == [] then START
    else Step(inputs, Exec(inputs, schedule[..|schedule| - 1]), schedule[|schedule| - 1])
  }

  /** The shared variables a goroutine writes, as a function of how far it has come. */
  ghost predicate Wrote(g: Goroutine, r: ProbeResult, err: Option<Error>, address: Option<string>, flag: bool) {
    && err == (if g == Looking then None else ErrorOf(r))
    && address == (if r.Ok? && g != Looking && g != ErrorStored then r.value else None)
    && flag == (r.Ok? && (g == FlagStored || g == Done))
    && (g == AddressStored || g == FlagStored ==> r.Ok?)
  }

  ghost predicate Consistent(inputs: Inputs, cancelled: bool, s: System) {
    && Wrote(s.four, inputs.ipv4, s.ipv4Err, s.observed.ipv4, s.observed.ipv4Observed)
    && Wrote(s.six, inputs.ipv6, s.ipv6Err, s.observed.ipv6, s.observed.ipv6Observed)
    && (s.caller != Returned ==> s.outcome.None?)
    && (s.caller != Returned ==> s.cause == if cancelled then Some(inputs.parentCause) else None)
    && (s.caller == Waiting ==> inputs.read.Ok? && s.current == inputs.read.value)
  }

  lemma ProbeStepConsistent(inputs: Inputs, cancelled: bool, s: System)
    requires Consistent(inputs, cancelled, s)
    ensures Consistent(inputs, cancelled, Step(inputs, s, Four))
    ensures Consistent(inputs, cancelled, Step(inputs, s, Six))
  {
    hide After, Mark;
    assert Next(s.four, inputs.ipv4) == AddressStored ==> inputs.ipv4.Ok?;
    assert Next(s.six, inputs.ipv6) == AddressStored ==> inputs.ipv6.Ok?;
  }

  lemma CallStepConsistent(inputs: Inputs, cancelled: bool, s: System)
    requires Consistent(inputs, cancelled, s)
    ensures Consistent(inputs, cancelled, Step(inputs, s, Call))
    ensures Consistent(inputs, true, Step(inputs, s, CancelParent))
  {
    var now := Step(inputs, s, Call);
    assert now.four == s.four && now.six == s.six && now.observed == s.observed;
  }

  lemma {:induction false} AlwaysConsistent(inputs: Inputs, schedule: seq<Action>)
    ensures Consistent(inputs, CancelParent in schedule, Exec(inputs, schedule))
  {
    if schedule != [] {
      var front, a := schedule[..|schedule| - 1], schedule[|schedule| - 1];
      AlwaysConsistent(inputs, front);
      assert schedule == front + [a];
      assert CancelParent in schedule <==> CancelParent in front || a == CancelParent;
      ProbeStepConsistent(inputs, CancelParent in front, Exec(inputs, front));
      CallStepConsistent(inputs, CancelParent in front, Exec(inputs, front));
    }
  }

  ghost predicate Returns(inputs: Inputs, schedule: seq<Action>) {
    && schedule != []
    && Exec(inputs, schedule[..|schedule| - 1]).caller != Returned
    && Exec(inputs, schedule).caller == Returned
  }

  /**
    Whatever the interleaving up to the return, the outcome is that of the
    sequential account; a failed read never waits for the probes, and success
    means that both have finished with their flags set by their answers.
  */
  lemma {:induction false} CollectIgnoresInterleaving(inputs: Inputs, schedule: seq<Action>)
    requires Returns(inputs, schedule)
    ensures Exec(inputs, schedule).outcome == Some(CollectOutcome(inputs, CancelParent in schedule))
    ensures inputs.read.Ok? ==> Exec(inputs, schedule).four == Exec(inputs, schedule).six == Done
    ensures var outcome := CollectOutcome(inputs, CancelParent in schedule);
      outcome.Collected? ==>
        && outcome.observed.ipv4Observed == inputs.ipv4.Ok? && outcome.observed.ipv6Observed == inputs.ipv6.Ok?
        && (inputs.ipv4.Ok? || inputs.ipv6.Ok?)
        && (!inputs.allowPartialFailure ==> inputs.ipv4.Ok? && inputs.ipv6.Ok?)
  {
    var front, a := schedule[..|schedule| - 1], schedule[|schedule| - 1];
    AlwaysConsistent(inputs, front);
    assert a == Call;
    assert schedule == front + [a];
    assert CancelParent in schedule <==> CancelParent in front;
  }

  /** Two schedules that agree on whether the parent was cancelled in time agree on the outcome. */
  lemma SchedulesAgree(inputs: Inputs, one: seq<Action>, other: seq<Action>)
    requires Returns(inputs, one) && Returns(inputs, other)
    requires inputs.read.Err? || (CancelParent in one <==> CancelParent in other)
    ensures Exec(inputs, one).outcome == Exec(inputs, other).outcome
  {
    CollectIgnoresInterleaving(inputs, one);
    CollectIgnoresInterleaving(inputs, other);
  }

  /** Goroutines that run on after the return cannot change what was returned. */
  lemma {:induction false} ReturnIsFinal(inputs: Inputs, schedule: seq<Action>, more: seq<Action>)
    requires Exec(inputs, schedule).caller == Returned
    ensures Exec(inputs, schedule + more).caller == Returned
    ensures Exec(inputs, schedule + more).outcome == Exec(inputs, schedule).outcome
    decreases |more|
  {
    if more == [] {
      assert schedule + more == schedule;
    } else {
      var front := more[..|more| - 1];
      ReturnIsFinal(inputs, schedule, front);
      assert (schedule + more)[..|schedule + more| - 1] == schedule + front;
    }
  }

  function Left(g: Goroutine): nat {
    match g case Looking => 4 case ErrorStored => 3 case AddressStored => 2 case FlagStored => 1 case Done => 0
  }

  function Remaining(s: System): nat {
    Left(s.four) + Left(s.six) + match s.caller case Reading => 2 case Waiting => 1 case Returned => 0
  }

  /** No schedule gets stuck: until the return some party can move, and no move takes another back. */
  lemma CollectProgresses(inputs: Inputs, s: System, a: Action)
    ensures Remaining(Step(inputs, s, a)) <= Remaining(s)
    ensures s.caller != Returned ==>
      exists b :: b != CancelParent && Remaining(Step(inputs, s, b)) < Remaining(s)
  {
    hide CollectProbeError, ReadError;
    if s.caller != Returned {
      if s.four != Done {
        assert Remaining(Step(inputs, s, Four)) < Remaining(s);
      } else if s.six != Done {
        assert Remaining(Step(inputs, s, Six)) < Remaining(s);
      } else {
        assert Remaining(Step(inputs, s, Call)) < Remaining(s);
      }
    }
  }
}
