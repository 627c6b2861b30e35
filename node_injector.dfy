/** NodeInjector: injects a fault into a node by running commands in the
    node's namespaces, either the user's own start and end commands
    ("custom") or a stress-ng CPU load ("stress_cpu"), following the fault's
    pattern: a burst, a degradation with a growing intensity, or one
    persistent fault. */
module NodeInjectors {
  import opened Wrappers
  import opened Text
  import opened Args
  import opened NodeCommands
  import opened Schedule

  /** What a NodeInjector is constructed with, apart from its timing. */
  datatype NodeFault = NodeFault(
    pid: Option<nat>,
    faultType: string,
    pattern: string,
    patternArgs: ArgList,
    faultArgs: ArgList)

  /** The stress-ng command a "stress_cpu" fault runs for a requested CPU
      percentage. How that percentage is split over the CPUs the node's
      cgroup may use, and for how long it runs, is read from the system, so
      the injector is given it. */
  type StressCommand = int -> string

  /** execute_command_for_node: the command line that runs for `command`,
      or `None` for the logged no-op. */
  function NodeLine(pid: Option<nat>, command: Option<string>): (line: Option<string>)
    ensures line.None? <==> command.None?
    ensures command.Some? ==> NodeNamespace(pid) + " " <= line.value
    ensures command.Some? ==> CharCount(line.value, '|') == CharCount(command.value, '|')
  {
    match command
    case None => None
    case Some(c) =>
      NodeCommandLineKeepsPipes(pid, c);
      Some(NodeCommandLine(pid, c))
  }

  /** One call of execute_command_for_node. */
  function NodeStep(pid: Option<nat>, enable: bool, command: Option<string>): Step {
    Exec(enable, [NodeLine(pid, command)])
  }

  // ---------------------------------------------------------------------------
  // Burst and persistent: the same pair of commands

  /** The command that turns the fault on and the one that turns it off. */
  datatype Pulse = Pulse(start: Option<string>, stop: Option<string>)

  /** The CPU percentage of a stress fault: `fault_args[0]`, or 50 when the
      list is empty. */
  function StressPercent(faultArgs: ArgList): (r: Result<int, Error>)
    ensures faultArgs.None? ==> r == Failure(NoneError(FaultArgs))
    ensures faultArgs.Some? && |faultArgs.value| == 0 ==> r == Success(50)
    ensures faultArgs.Some? && |faultArgs.value| >= 1 ==>
      (r.Success? <==> ParseInt(faultArgs.value[0]).Some?)
    ensures faultArgs.Some? && |faultArgs.value| >= 1 && r.Success? ==> r.value == ParseInt(faultArgs.value[0]).value
  {
    var count :- ArgCount(faultArgs, FaultArgs);
    if count >= 1 then ToInt(faultArgs.value[0]) else Success(50)
  }

  /** The pair of commands of a burst or a persistent fault: the custom
      commands, or the stress command followed by the no-op; nothing for an
      unknown fault type, which is only logged. */
  function NodePulse(f: NodeFault, stress: StressCommand): (r: Result<Option<Pulse>, Error>)
    ensures f.faultType == "custom" ==>
      r == (match CustomCommands(f.faultArgs)
            case Failure(e) => Failure(e)
            case Success(commands) => Success(Some(Pulse(commands.0, commands.1))))
    ensures f.faultType == "stress_cpu" ==>
      r == (match StressPercent(f.faultArgs)
            case Failure(e) => Failure(e)
            case Success(p) => Success(Some(Pulse(Some(stress(p)), None))))
    ensures f.faultType != "custom" && f.faultType != "stress_cpu" ==> r == Success(None)
  {
    if f.faultType == "custom" then
      var commands :- CustomCommands(f.faultArgs);
      Success(Some(Pulse(commands.0, commands.1)))
    else if f.faultType == "stress_cpu" then
      var p :- StressPercent(f.faultArgs);
      Success(Some(Pulse(Some(stress(p)), None)))
    else Success(None)
  }

  /** The pulse run once: on, then off. */
  function PulsePlan(pid: Option<nat>, pulse: Pulse): seq<Step> {
    [NodeStep(pid, true, pulse.start), NodeStep(pid, false, pulse.stop)]
  }

  /** The burst: after the timing is read, `n` pulses. */
  function NodeBurstPlan(f: NodeFault, stress: StressCommand, n: nat): seq<Step> {
    match BurstTiming(f.patternArgs)
    case Failure(e) => [Raise(e)]
    case Success(_) =>
      match NodePulse(f, stress)
      case Failure(e) => [Raise(e)]
      case Success(None) => []
      case Success(Some(pulse)) =>
        Flatten(Pairs(n, NodeStep(f.pid, true, pulse.start), NodeStep(f.pid, false, pulse.stop)))
  }

  /** The persistent fault: one pulse. */
  function NodePersistentPlan(f: NodeFault, stress: StressCommand): seq<Step> {
    match NodePulse(f, stress)
    case Failure(e) => [Raise(e)]
    case Success(None) => []
    case Success(Some(pulse)) => PulsePlan(f.pid, pulse)
  }

  /** A burst whose settings are readable runs exactly `n` pairs of
      commands, strictly alternating and starting with the enabling one, all
      in the node's namespaces; a stress burst's disabling command is the
      no-op, since stress-ng stops by itself. */
  lemma NodeBurstAlternates(f: NodeFault, stress: StressCommand, n: nat)
    requires BurstTiming(f.patternArgs).Success?
    requires NodePulse(f, stress).Success? && NodePulse(f, stress).value.Some?
    ensures var pulse := NodePulse(f, stress).value.value;
      var run := Play(NodeBurstPlan(f, stress, n));
      && run.outcome == Pass
      && |run.events| == 2 * n
      && (forall k :: 0 <= k < n ==> run.events[2 * k] == Event(true, NodeLine(f.pid, pulse.start)))
      && (forall k :: 0 <= k < n ==> run.events[2 * k + 1] == Event(false, NodeLine(f.pid, pulse.stop)))
    ensures f.faultType == "stress_cpu" ==> NodePulse(f, stress).value.value.stop.None?
  {
    var pulse := NodePulse(f, stress).value.value;
    SingleCommandPairs(n, NodeLine(f.pid, pulse.start), NodeLine(f.pid, pulse.stop));
  }

  // ---------------------------------------------------------------------------
  // Degradation

  /** A degradation's settings: the intensity starts at `start`
      (`fault_pattern_args[2]`, default 0) and grows by `step` (`[0]`,
      default 5) up to `end` (`[3]`, default 100, not capped: a node's
      intensity need not be a percentage). */
  datatype NodeDegradation = NodeDegradation(start: int, step: int, end: int)

  /** Reads the settings in the order the coroutine does, raising where it
      raises: `len(None)`, a non-integer argument, and a step length of 0,
      which divides the injection time by zero. */
  function NodeDegradationOf(patternArgs: ArgList): (r: Result<NodeDegradation, Error>)
    ensures patternArgs.None? ==> r == Failure(NoneError(PatternArgs))
    ensures r.Success? && |patternArgs.value| >= 4 ==> ParseInt(patternArgs.value[3]) == Some(r.value.end)
    ensures r.Success? && |patternArgs.value| < 4 ==> r.value.end == 100
    ensures r.Success? && |patternArgs.value| >= 3 ==> ParseInt(patternArgs.value[2]) == Some(r.value.start)
    ensures r.Success? && |patternArgs.value| < 3 ==> r.value.start == 0
    ensures r.Success? && |patternArgs.value| >= 1 ==> ParseInt(patternArgs.value[0]) == Some(r.value.step)
    ensures r.Success? && |patternArgs.value| < 1 ==> r.value.step == 5
    ensures r.Success? && |patternArgs.value| >= 2 ==> ParseInt(patternArgs.value[1]) != Some(0)
  {
    var count :- ArgCount(patternArgs, PatternArgs);
    var args := patternArgs.value;
    var end :- if count >= 4 then ToInt(args[3]) else Success(100);
    var start :- if count >= 3 then ToInt(args[2]) else Success(0);
    var stepLength :- if count >= 2 then ToInt(args[1]) else Success(1000);
    var step :- if count >= 1 then ToInt(args[0]) else Success(5);
    if stepLength == 0 then Failure(ZeroDivisionError)
    else Success(NodeDegradation(start, step, end))
  }

  /** The intensity of each of `n` steps. */
  function NodeIntensities(d: NodeDegradation, n: nat): (values: seq<int>)
    ensures |values| == n
  {
    Intensities(d.start, d.step, d.end, n)
  }

  /** What a degradation step runs: the custom start command with the
      intensity filled in, followed by the end command; or the stress
      command for the intensity, followed by the no-op. */
  datatype Ramp = CustomRamp(template: string, stop: Option<string>) | StressRamp

  /** The ramp of the fault type: a custom degradation needs a start
      command (the template's `{}` count is read before the first step);
      an unknown fault type runs nothing. */
  function NodeRamp(f: NodeFault): (r: Result<Option<Ramp>, Error>)
    ensures f.faultType == "custom" && f.faultArgs.None? ==> r == Failure(NoneError(FaultArgs))
    ensures f.faultType == "custom" && f.faultArgs.Some? && |f.faultArgs.value| == 0 ==>
      r == Failure(NoneError(StartCommand))
    ensures f.faultType == "custom" && f.faultArgs.Some? && |f.faultArgs.value| >= 1 ==>
      r == Success(Some(CustomRamp(f.faultArgs.value[0],
                                   if |f.faultArgs.value| >= 2 then Some(f.faultArgs.value[1]) else None)))
    ensures f.faultType == "stress_cpu" ==> r == Success(Some(StressRamp))
    ensures f.faultType != "custom" && f.faultType != "stress_cpu" ==> r == Success(None)
  {
    if f.faultType == "custom" then
      var commands :- CustomCommands(f.faultArgs);
      if commands.0.None? then Failure(NoneError(StartCommand))
      else Success(Some(CustomRamp(commands.0.value, commands.1)))
    else if f.faultType == "stress_cpu" then Success(Some(StressRamp))
    else Success(None)
  }

  /** One degradation step at intensity `value`; filling in a template with
      more than one `{}` raises. */
  function RampBlock(pid: Option<nat>, stress: StressCommand, ramp: Ramp, value: int): seq<Step> {
    match ramp
    case StressRamp => [NodeStep(pid, true, Some(stress(value))), NodeStep(pid, false, None)]
    case CustomRamp(template, stop) =>
      match FormatOne(template, IntToString(value))
      case Failure(e) => [Raise(e)]
      case Success(command) => [NodeStep(pid, true, Some(command)), NodeStep(pid, false, stop)]
  }

  function RampBlocks(pid: Option<nat>, stress: StressCommand, ramp: Ramp, d: NodeDegradation, n: nat): seq<seq<Step>> {
    seq(n, k requires 0 <= k < n => RampBlock(pid, stress, ramp, NodeIntensities(d, n)[k]))
  }

  /** The degradation: the settings, then the ramp, then `n` steps. */
  function NodeDegradationPlan(f: NodeFault, stress: StressCommand, n: nat): seq<Step> {
    match NodeDegradationOf(f.patternArgs)
    case Failure(e) => [Raise(e)]
    case Success(d) =>
      match NodeRamp(f)
      case Failure(e) => [Raise(e)]
      case Success(None) => []
      case Success(Some(ramp)) => Flatten(RampBlocks(f.pid, stress, ramp, d, n))
  }

  /** A stress degradation runs `n` pairs: the stress command at the k-th
      intensity, then the no-op. */
  lemma StressRampFollowsIntensities(pid: Option<nat>, stress: StressCommand, d: NodeDegradation, n: nat)
    ensures var plan := Flatten(RampBlocks(pid, stress, StressRamp, d, n));
      && |plan| == 2 * n
      && (forall k :: 0 <= k < n ==> plan[2 * k] == NodeStep(pid, true, Some(stress(NodeIntensities(d, n)[k]))))
      && (forall k :: 0 <= k < n ==> plan[2 * k + 1] == NodeStep(pid, false, None))
  {
    var blocks := RampBlocks(pid, stress, StressRamp, d, n);
    forall k | 0 <= k < n
      ensures |blocks[k]| == 2
      ensures blocks[k][0] == NodeStep(pid, true, Some(stress(NodeIntensities(d, n)[k])))
      ensures blocks[k][1] == NodeStep(pid, false, None)
    {
      assert blocks[k] == RampBlock(pid, stress, StressRamp, NodeIntensities(d, n)[k]);
    }
    FlattenTwoStepBlocks(blocks);
    forall k | 0 <= k < n
      ensures Flatten(blocks)[2 * k] == NodeStep(pid, true, Some(stress(NodeIntensities(d, n)[k])))
      ensures Flatten(blocks)[2 * k + 1] == NodeStep(pid, false, None)
    {
      assert Flatten(blocks)[2 * k] == blocks[k][0];
      assert Flatten(blocks)[2 * k + 1] == blocks[k][1];
    }
  }

  /** A custom template with one `{}` and no other brace runs, at step k,
      the template with the k-th intensity in place of the `{}`, then the
      end command. */
  lemma CustomRampSplices(pid: Option<nat>, stress: StressCommand, before: string, after: string,
                          stop: Option<string>, d: NodeDegradation, n: nat)
    requires '{' !in before && '}' !in before && '{' !in after && '}' !in after
    ensures var plan := Flatten(RampBlocks(pid, stress, CustomRamp(before + "{}" + after, stop), d, n));
      && |plan| == 2 * n
      && (forall k :: 0 <= k < n ==>
            plan[2 * k] == NodeStep(pid, true, Some(before + IntToString(NodeIntensities(d, n)[k]) + after)))
      && (forall k :: 0 <= k < n ==> plan[2 * k + 1] == NodeStep(pid, false, stop))
  {
    var blocks := RampBlocks(pid, stress, CustomRamp(before + "{}" + after, stop), d, n);
    forall k | 0 <= k < n
      ensures |blocks[k]| == 2
      ensures blocks[k][0] == NodeStep(pid, true, Some(before + IntToString(NodeIntensities(d, n)[k]) + after))
      ensures blocks[k][1] == NodeStep(pid, false, stop)
    {
      CustomBlockAt(pid, stress, before, after, stop, d, n, k);
    }
    FlattenTwoStepBlocks(blocks);
    forall k | 0 <= k < n
      ensures Flatten(blocks)[2 * k + 1] == NodeStep(pid, false, stop)
    {
      assert Flatten(blocks)[2 * k + 1] == blocks[k][1];
    }
  }

  lemma CustomBlockAt(pid: Option<nat>, stress: StressCommand, before: string, after: string,
                      stop: Option<string>, d: NodeDegradation, n: nat, k: nat)
    requires '{' !in before && '}' !in before && '{' !in after && '}' !in after
    requires k < n
    ensures var block := RampBlocks(pid, stress, CustomRamp(before + "{}" + after, stop), d, n)[k];
      && |block| == 2
      && block[0] == NodeStep(pid, true, Some(before + IntToString(NodeIntensities(d, n)[k]) + after))
      && block[1] == NodeStep(pid, false, stop)
  {
    var value := NodeIntensities(d, n)[k];
    assert RampBlocks(pid, stress, CustomRamp(before + "{}" + after, stop), d, n)[k]
           == RampBlock(pid, stress, CustomRamp(before + "{}" + after, stop), value);
    FormatOneSplices(before, after, IntToString(value));
  }

  /** A custom template with more than one `{}` raises at the first step,
      before anything runs. */
  lemma CustomRampTooManyPlaceholders(pid: Option<nat>, stress: StressCommand, template: string,
                                      stop: Option<string>, d: NodeDegradation, n: nat)
    requires n > 0 && CountOf(template, "{}") > 1
    ensures Play(Flatten(RampBlocks(pid, stress, CustomRamp(template, stop), d, n)))
            == Run([], Fail(PlaceholderError(CountOf(template, "{}"))))
  {
    var blocks := RampBlocks(pid, stress, CustomRamp(template, stop), d, n);
    assert blocks[0] == RampBlock(pid, stress, CustomRamp(template, stop), NodeIntensities(d, n)[0]);
    PlaceholderBlockRaises(pid, stress, template, stop, NodeIntensities(d, n)[0]);
    FirstBlockRaises(blocks, PlaceholderError(CountOf(template, "{}")));
  }

  lemma PlaceholderBlockRaises(pid: Option<nat>, stress: StressCommand, template: string,
                               stop: Option<string>, value: int)
    requires CountOf(template, "{}") > 1
    ensures RampBlock(pid, stress, CustomRamp(template, stop), value) == [Raise(PlaceholderError(CountOf(template, "{}")))]
  {
  }

  /** Settings written out in full are read back as given: in particular,
      unlike a link's, a node's degradation end is not capped at 100. */
  lemma NodeEndNotCapped(step: int, stepLength: int, start: int, end: int)
    requires stepLength != 0
    ensures NodeDegradationOf(Some([IntToString(step), IntToString(stepLength), IntToString(start), IntToString(end)]))
            == Success(NodeDegradation(start, step, end))
  {
    ParseIntOfIntToString(step);
    ParseIntOfIntToString(stepLength);
    ParseIntOfIntToString(start);
    ParseIntOfIntToString(end);
  }

  // ---------------------------------------------------------------------------
  // The choice between the patterns

  /** do_injection: the pattern is matched exactly; an unknown pattern runs
      nothing. */
  function NodeInjectionPlan(f: NodeFault, stress: StressCommand, n: nat): seq<Step> {
    if f.pattern == "burst" then NodeBurstPlan(f, stress, n)
    else if f.pattern == "degradation" then NodeDegradationPlan(f, stress, n)
    else if f.pattern == "persistent" then NodePersistentPlan(f, stress)
    else []
  }

  // ---------------------------------------------------------------------------
  // The injector

  class NodeInjector {
    const fault: NodeFault
    const stress: StressCommand
    /** The commands run so far, in order. */
    var trace: seq<Event>

    constructor(fault: NodeFault, stress: StressCommand)
      ensures this.fault == fault && this.stress == stress && trace == []
    {
      this.fault := fault;
      this.stress := stress;
      trace := [];
    }

    /** execute_command_for_node for this injector's node. */
    method Execute(command: Option<string>, enable: bool)
      modifies this
      ensures trace == old(trace) + [Event(enable, NodeLine(fault.pid, command))]
    {
      var line: Option<string> := None;
      if command.Some? {
        var full := NodeNamespace(fault.pid) + " " + command.value;
        line := Some(PipeRewrite(NodeNamespace(fault.pid), full));
      }
      trace := trace + [Event(enable, line)];
    }

    /** `n` times the pulse: on, then off. */
    method Pulses(n: nat, pulse: Pulse)
      modifies this
      ensures trace == old(trace)
        + Play(Flatten(Pairs(n, NodeStep(fault.pid, true, pulse.start), NodeStep(fault.pid, false, pulse.stop)))).events
    {
      ghost var events := [Event(true, NodeLine(fault.pid, pulse.start)), Event(false, NodeLine(fault.pid, pulse.stop))];
      for i := 0 to n
        invariant trace == old(trace) + Repeat(i, events)
      {
        Execute(pulse.start, true);
        Execute(pulse.stop, false);
      }
      PairsRun(n, NodeStep(fault.pid, true, pulse.start), NodeStep(fault.pid, false, pulse.stop));
      assert Perform(NodeStep(fault.pid, true, pulse.start)).events
             + Perform(NodeStep(fault.pid, false, pulse.stop)).events == events;
    }

    /** _inject_burst, for `n` bursts. */
    method Burst(n: nat) returns (outcome: Outcome<Error>)
      modifies this
      ensures trace == old(trace) + Play(NodeBurstPlan(fault, stress, n)).events
      ensures outcome == Play(NodeBurstPlan(fault, stress, n)).outcome
    {
      var timing := BurstTiming(fault.patternArgs);
      if timing.Failure? {
        PlayOne(Raise(timing.error));
        return Fail(timing.error);
      }
      var pulse := NodePulse(fault, stress);
      if pulse.Failure? {
        PlayOne(Raise(pulse.error));
        return Fail(pulse.error);
      }
      if pulse.value.Some? {
        Pulses(n, pulse.value.value);
        PairsRun(n, NodeStep(fault.pid, true, pulse.value.value.start), NodeStep(fault.pid, false, pulse.value.value.stop));
      }
      outcome := Pass;
    }

    /** One step of a degradation at intensity `value`. */
    method RampStep(ramp: Ramp, value: int) returns (outcome: Outcome<Error>)
      modifies this
      ensures trace == old(trace) + Play(RampBlock(fault.pid, stress, ramp, value)).events
      ensures outcome == Play(RampBlock(fault.pid, stress, ramp, value)).outcome
    {
      var start: string;
      var stop: Option<string>;
      match ramp {
        case StressRamp =>
          start, stop := stress(value), None;
        case CustomRamp(template, end) =>
          var command := FormatOne(template, IntToString(value));
          if command.Failure? {
            PlayOne(Raise(command.error));
            return Fail(command.error);
          }
          start, stop := command.value, end;
      }
      PlayPair(NodeStep(fault.pid, true, Some(start)), NodeStep(fault.pid, false, stop));
      Execute(Some(start), true);
      Execute(stop, false);
      outcome := Pass;
    }

    /** _inject_degradation, for `n` steps. */
    method Degradation(n: nat) returns (outcome: Outcome<Error>)
      modifies this
      ensures trace == old(trace) + Play(NodeDegradationPlan(fault, stress, n)).events
      ensures outcome == Play(NodeDegradationPlan(fault, stress, n)).outcome
    {
      var settings := NodeDegradationOf(fault.patternArgs);
      if settings.Failure? {
        PlayOne(Raise(settings.error));
        return Fail(settings.error);
      }
      var d := settings.value;
      var ramp := NodeRamp(fault);
      if ramp.Failure? {
        PlayOne(Raise(ramp.error));
        return Fail(ramp.error);
      }
      outcome := Pass;
      if ramp.value.None? {
        return;
      }
      ghost var blocks := RampBlocks(fault.pid, stress, ramp.value.value, d, n);
      var intensity := d.start;
      LoopStart(blocks);
      for i := 0 to n
        invariant trace == old(trace) + Play(Flatten(blocks[..i])).events
        invariant Play(Flatten(blocks[..i])).outcome == Pass && outcome == Pass
        invariant i < n ==> intensity == NodeIntensities(d, n)[i]
      {
        ghost var before := trace;
        outcome := RampStep(ramp.value.value, intensity);
        assert blocks[i] == RampBlock(fault.pid, stress, ramp.value.value, intensity);
        LoopTrace(blocks, i, old(trace), before, trace);
        if outcome.Fail? {
          return;
        }
        if i + 1 < n {
          IntensitiesStep(d.start, d.step, d.end, n, i);
        }
        intensity := Min(intensity + d.step, d.end);
      }
      LoopDone(blocks);
    }

    /** _inject_persistent */
    method Persistent() returns (outcome: Outcome<Error>)
      modifies this
      ensures trace == old(trace) + Play(NodePersistentPlan(fault, stress)).events
      ensures outcome == Play(NodePersistentPlan(fault, stress)).outcome
    {
      var pulse := NodePulse(fault, stress);
      if pulse.Failure? {
        PlayOne(Raise(pulse.error));
        return Fail(pulse.error);
      }
      outcome := Pass;
      if pulse.value.Some? {
        var p := pulse.value.value;
        PlayPair(NodeStep(fault.pid, true, p.start), NodeStep(fault.pid, false, p.stop));
        Execute(p.start, true);
        Execute(p.stop, false);
      }
    }

    /** do_injection, with `n` the number of bursts or degradation steps its
        timing allows. */
    method DoInjection(n: nat) returns (outcome: Outcome<Error>)
      modifies this
      ensures trace == old(trace) + Play(NodeInjectionPlan(fault, stress, n)).events
      ensures outcome == Play(NodeInjectionPlan(fault, stress, n)).outcome
    {
      if fault.pattern == "burst" {
        outcome := Burst(n);
      } else if fault.pattern == "degradation" {
        outcome := Degradation(n);
      } else if fault.pattern == "persistent" {
        outcome := Persistent();
      } else {
        outcome := Pass;
      }
    }
  }
}
