/** LinkInjector: injects one fault into one interface of a node, by the
    commands of LinkCommands, following the fault's pattern: a burst of
    persistent faults, a degradation of random faults with a growing
    percentage, or a single persistent or random fault. */
module LinkInjectors {
  import opened Wrappers
  import opened Text
  import opened Args
  import opened LinkCommands
  import opened Schedule

  /** What a LinkInjector is constructed with, apart from its timing. */
  datatype LinkFault = LinkFault(
    device: string,
    pid: Option<nat>,
    protocol: Option<string>,
    dstPorts: Option<seq<string>>,
    srcPorts: Option<seq<string>>,
    faultType: string,
    pattern: string,
    patternArgs: ArgList,
    faultArgs: ArgList)

  function AsCommands(commands: seq<string>): seq<Option<string>> {
    seq(|commands|, i requires 0 <= i < |commands| => Some(commands[i]))
  }

  /** One call of inject_nics: it runs every command it builds, in order,
      each in the node's network namespace, or raises before running any. */
  function NicsStep(pid: Option<nat>, device: string, faultType: string, pattern: string,
                    patternArgs: ArgList, faultArgs: ArgList, protocol: Option<string>,
                    dstPorts: Option<seq<string>>, srcPorts: Option<seq<string>>, enable: bool): (step: Step)
    ensures step.Exec? ==> step.enable == enable
  {
    match NicsCommands(pid, device, faultType, pattern, patternArgs, faultArgs, protocol, dstPorts, srcPorts, enable)
    case Success(commands) => Exec(enable, AsCommands(commands))
    case Failure(e) => Raise(e)
  }

  /** Every command inject_nics runs enters the node's namespaces first. */
  lemma NicsStepStartsWithBase(pid: Option<nat>, device: string, faultType: string, pattern: string,
                               patternArgs: ArgList, faultArgs: ArgList, protocol: Option<string>,
                               dstPorts: Option<seq<string>>, srcPorts: Option<seq<string>>, enable: bool)
    ensures var step := NicsStep(pid, device, faultType, pattern, patternArgs, faultArgs, protocol,
                                 dstPorts, srcPorts, enable);
      step.Exec? ==> forall i :: 0 <= i < |step.commands| ==>
        step.commands[i].Some? && BaseCommand(pid) <= step.commands[i].value
  {
    var r := NicsCommands(pid, device, faultType, pattern, patternArgs, faultArgs, protocol, dstPorts, srcPorts, enable);
    if r.Success? {
      NicsCommandsStartWithBase(pid, device, faultType, pattern, patternArgs, faultArgs, protocol,
                                dstPorts, srcPorts, enable);
      assert forall i :: 0 <= i < |r.value| ==> r.value[i] in r.value;
    }
  }

  /** inject_nics on the injector's own interface and settings, with the given
      pattern and pattern arguments. */
  function FaultStep(f: LinkFault, pattern: string, patternArgs: ArgList, enable: bool): Step {
    NicsStep(f.pid, f.device, f.faultType, pattern, patternArgs, f.faultArgs, f.protocol, f.dstPorts, f.srcPorts, enable)
  }

  /** inject_nics for one injector, as a function of the arguments its
      patterns vary: the pattern, the pattern arguments and enable. The
      plans below are written over such a function; `InjectsFor` says that
      it is inject_nics on the injector's own interface and settings. */
  type Injection = (string, ArgList, bool) -> Step

  ghost predicate InjectsFor(inject: Injection, f: LinkFault) {
    forall pattern, patternArgs, enable {:trigger FaultStep(f, pattern, patternArgs, enable)} ::
      inject(pattern, patternArgs, enable) == FaultStep(f, pattern, patternArgs, enable)
  }

  /** The fault on, then off. */
  function TogglePlan(inject: Injection, pattern: string, patternArgs: ArgList): seq<Step> {
    [inject(pattern, patternArgs, true), inject(pattern, patternArgs, false)]
  }

  // ---------------------------------------------------------------------------
  // Burst

  /** The burst: `n` times the persistent fault on and then off. The pattern
      arguments must hold the burst's duration and period. */
  function BurstPlan(inject: Injection, f: LinkFault, n: nat): seq<Step> {
    match f.patternArgs
    case None => [Raise(NoneError(PatternArgs))]
    case Some(args) =>
      if |args| < 2 then [Raise(IndexError(PatternArgs, |args|))]
      else Flatten(Pairs(n, inject("persistent", Some([""]), true), inject("persistent", Some([""]), false)))
  }

  /** A burst is exactly `n` enable/disable pairs of the persistent fault,
      strictly alternating and starting with enable; too few pattern
      arguments raise before anything runs. */
  lemma BurstAlternates(inject: Injection, f: LinkFault, n: nat)
    requires InjectsFor(inject, f)
    ensures f.patternArgs.None? ==> BurstPlan(inject, f, n) == [Raise(NoneError(PatternArgs))]
    ensures f.patternArgs.Some? && |f.patternArgs.value| < 2 ==>
      BurstPlan(inject, f, n) == [Raise(IndexError(PatternArgs, |f.patternArgs.value|))]
    ensures f.patternArgs.Some? && |f.patternArgs.value| >= 2 ==>
      && |BurstPlan(inject, f, n)| == 2 * n
      && (forall k :: 0 <= k < n ==> BurstPlan(inject, f, n)[2 * k] == FaultStep(f, "persistent", Some([""]), true))
      && (forall k :: 0 <= k < n ==> BurstPlan(inject, f, n)[2 * k + 1] == FaultStep(f, "persistent", Some([""]), false))
  {
    if f.patternArgs.Some? && |f.patternArgs.value| >= 2 {
      var on := inject("persistent", Some([""]), true);
      var off := inject("persistent", Some([""]), false);
      assert on == FaultStep(f, "persistent", Some([""]), true);
      assert off == FaultStep(f, "persistent", Some([""]), false);
      var plan := Flatten(Pairs(n, on, off));
      assert BurstPlan(inject, f, n) == plan;
      PairsAlternate(n, on, off);
      forall k | 0 <= k < n
        ensures plan[2 * k] == on && plan[2 * k + 1] == off
      {
      }
    }
  }

  // ---------------------------------------------------------------------------
  // Degradation

  /** A degradation's settings, from the pattern arguments: the step
      (`fault_pattern_args[0]`, default 5), the start (`[2]`, default 0) and
      the end (`[3]`, capped at 100, default 100), start and step as the
      texts the source keeps them in. */
  datatype LinkDegradation = LinkDegradation(end: int, startText: string, stepText: string)

  /** `min(int(args[3]), 100)`, or 100 without a fourth argument. */
  function DegradationEnd(args: seq<string>): (r: Result<int, Error>)
    ensures r.Success? ==> r.value <= 100
    ensures |args| < 4 ==> r == Success(100)
    ensures |args| >= 4 ==> (r.Success? <==> ParseInt(args[3]).Some?)
    ensures |args| >= 4 && r.Success? ==> r.value == Min(ParseInt(args[3]).value, 100)
  {
    if |args| >= 4 then
      var end :- ToInt(args[3]);
      Success(Min(end, 100))
    else Success(100)
  }

  /** Reads the settings the way the degradation coroutine does, raising
      where it raises: `len(None)`, a non-integer end or step length, and a
      step length of 0, which divides the injection time by zero. */
  function DegradationOf(patternArgs: ArgList): (r: Result<LinkDegradation, Error>)
    ensures r.Success? ==> patternArgs.Some? && r.value.end <= 100
    ensures r.Success? ==> r.value.startText == (if |patternArgs.value| >= 3 then patternArgs.value[2] else "0")
    ensures r.Success? ==> r.value.stepText == (if |patternArgs.value| >= 1 then patternArgs.value[0] else "5")
    ensures r.Success? && |patternArgs.value| >= 2 ==> ParseInt(patternArgs.value[1]) != Some(0)
  {
    var count :- ArgCount(patternArgs, PatternArgs);
    var args := patternArgs.value;
    var end :- DegradationEnd(args);
    var startText := if count >= 3 then args[2] else "0";
    var stepLength :- if count >= 2 then ToInt(args[1]) else Success(1000);
    var stepText := if count >= 1 then args[0] else "5";
    if stepLength == 0 then Failure(ZeroDivisionError)
    else Success(LinkDegradation(end, startText, stepText))
  }

  /** The pattern argument of the k-th degradation step: the start text, then
      the text of each intensity. */
  function DegradationText(d: LinkDegradation, n: nat, k: nat): string
    requires k < n
  {
    if k == 0 then d.startText
    else match (ParseInt(d.startText), ParseInt(d.stepText))
      case (Some(start), Some(step)) => IntToString(Intensities(start, step, d.end, n)[k])
      case _ => d.startText
  }

  /** `int(value) + int(step)` at the end of each step raises when either
      text is not an integer. */
  function UpdateCheck(d: LinkDegradation, text: string): seq<Step> {
    match ToInt(text)
    case Failure(e) => [Raise(e)]
    case Success(_) =>
      match ToInt(d.stepText)
      case Failure(e) => [Raise(e)]
      case Success(_) => []
  }

  /** One degradation step: the random fault at the current percentage on,
      then off, then the update of the percentage. */
  function DegradationBlock(inject: Injection, d: LinkDegradation, n: nat, k: nat): seq<Step>
    requires k < n
  {
    var text := DegradationText(d, n, k);
    TogglePlan(inject, "random", Some([text])) + UpdateCheck(d, text)
  }

  function DegradationBlocks(inject: Injection, d: LinkDegradation, n: nat): seq<seq<Step>> {
    seq(n, k requires 0 <= k < n => DegradationBlock(inject, d, n, k))
  }

  /** The degradation: `n` steps, or the exception its settings raise. */
  function DegradationPlan(inject: Injection, f: LinkFault, n: nat): seq<Step> {
    match DegradationOf(f.patternArgs)
    case Failure(e) => [Raise(e)]
    case Success(d) => Flatten(DegradationBlocks(inject, d, n))
  }

  /** With integer start and step, the k-th step injects the k-th intensity,
      which from the second step on never exceeds 100, and the update never
      raises. */
  lemma DegradationFollowsIntensities(d: LinkDegradation, n: nat, k: nat, start: int, step: int)
    requires d.end <= 100
    requires ParseInt(d.startText) == Some(start) && ParseInt(d.stepText) == Some(step)
    requires k < n
    ensures ParseInt(DegradationText(d, n, k)) == Some(Intensities(start, step, d.end, n)[k])
    ensures k >= 1 ==> Intensities(start, step, d.end, n)[k] <= 100
    ensures UpdateCheck(d, DegradationText(d, n, k)) == []
  {
    if k >= 1 {
      ParseIntOfIntToString(Intensities(start, step, d.end, n)[k]);
      IntensitiesBounded(start, step, d.end, n, k);
    }
  }

  /** With integer start and step the degradation is `n` enable/disable pairs
      of the random fault, the k-th at the k-th intensity. */
  lemma DegradationAlternates(inject: Injection, f: LinkFault, n: nat, start: int, step: int)
    requires InjectsFor(inject, f)
    requires DegradationOf(f.patternArgs).Success?
    requires ParseInt(DegradationOf(f.patternArgs).value.startText) == Some(start)
    requires ParseInt(DegradationOf(f.patternArgs).value.stepText) == Some(step)
    ensures var d := DegradationOf(f.patternArgs).value;
      && |DegradationPlan(inject, f, n)| == 2 * n
      && (forall k :: 0 <= k < n ==>
            DegradationPlan(inject, f, n)[2 * k] == FaultStep(f, "random", Some([DegradationText(d, n, k)]), true)
            && DegradationPlan(inject, f, n)[2 * k + 1] == FaultStep(f, "random", Some([DegradationText(d, n, k)]), false))
  {
    var d := DegradationOf(f.patternArgs).value;
    var blocks := DegradationBlocks(inject, d, n);
    forall k | 0 <= k < n
      ensures |blocks[k]| == 2
      ensures blocks[k][0] == FaultStep(f, "random", Some([DegradationText(d, n, k)]), true)
      ensures blocks[k][1] == FaultStep(f, "random", Some([DegradationText(d, n, k)]), false)
    {
      DegradationFollowsIntensities(d, n, k, start, step);
    }
    FlattenTwoStepBlocks(blocks);
  }

  // ---------------------------------------------------------------------------
  // Persistent or random, and the choice between the patterns

  /** A single persistent or random fault: on, then off. */
  function SinglePlan(inject: Injection, f: LinkFault): seq<Step> {
    TogglePlan(inject, f.pattern, f.patternArgs)
  }

  /** do_injection: the pattern is matched by substring, burst first. */
  function InjectionPlan(inject: Injection, f: LinkFault, n: nat): seq<Step> {
    if Contains(f.pattern, "burst") then BurstPlan(inject, f, n)
    else if Contains(f.pattern, "degradation") then DegradationPlan(inject, f, n)
    else SinglePlan(inject, f)
  }

  // ---------------------------------------------------------------------------
  // The injector

  /** The commands inject_nics runs: one command for every protocol when
      the protocol names "any", the filtered list otherwise. */
  method NicsCommandList(device: string, nodePid: Option<nat>, faultType: string, pattern: string,
                         patternArgs: ArgList, faultArgs: ArgList, protocol: Option<string>,
                         dstPorts: Option<seq<string>>, srcPorts: Option<seq<string>>, enable: bool)
    returns (r: Result<seq<string>, Error>)
    ensures r == NicsCommands(nodePid, device, faultType, pattern, patternArgs, faultArgs,
                              protocol, dstPorts, srcPorts, enable)
  {
    if protocol.None? {
      return Failure(NoneError(TargetProtocol));
    }
    if Contains(protocol.value, "any") {
      var command := MakeNicsInjectionCommand(nodePid, device, faultType, pattern,
                                              if Truthy(patternArgs) then patternArgs else None,
                                              faultArgs, if enable then "add" else "del");
      if command.Failure? {
        return Failure(command.error);
      }
      if command.value.None? {
        return Failure(NoneError(ShellCommand));
      }
      return Success([command.value.value]);
    }
    r := MakeFilteredNicsInjectionCommands(nodePid, pattern, patternArgs, faultType, faultArgs,
                                           device, protocol.value, dstPorts, srcPorts, enable);
  }

  class LinkInjector {
    const fault: LinkFault
    /** inject_nics on this injector's interface and settings. */
    ghost const inject: Injection
    /** The commands run so far, in order. */
    var trace: seq<Event>

    ghost predicate Valid() {
      InjectsFor(inject, fault)
    }

    constructor(fault: LinkFault)
      ensures this.fault == fault && trace == [] && Valid()
    {
      this.fault := fault;
      inject := (pattern, patternArgs, enable) => FaultStep(fault, pattern, patternArgs, enable);
      trace := [];
    }

    /** Runs the commands one by one. */
    method RunCommands(commands: seq<string>, enable: bool)
      modifies this
      ensures trace == old(trace) + StepEvents(enable, AsCommands(commands))
    {
      for i := 0 to |commands|
        invariant trace == old(trace) + StepEvents(enable, AsCommands(commands[..i]))
      {
        assert StepEvents(enable, AsCommands(commands[..i + 1]))
               == StepEvents(enable, AsCommands(commands[..i])) + [Event(enable, Some(commands[i]))];
        trace := trace + [Event(enable, Some(commands[i]))];
      }
      assert commands[..|commands|] == commands;
    }

    /** inject_nics: builds the commands for the interface and runs them. */
    method InjectNics(device: string, nodePid: Option<nat>, faultType: string, pattern: string,
                      patternArgs: ArgList, faultArgs: ArgList, protocol: Option<string>,
                      dstPorts: Option<seq<string>>, srcPorts: Option<seq<string>>, enable: bool)
      returns (outcome: Outcome<Error>)
      modifies this
      ensures var run := Perform(NicsStep(nodePid, device, faultType, pattern, patternArgs, faultArgs,
                                          protocol, dstPorts, srcPorts, enable));
        trace == old(trace) + run.events && outcome == run.outcome
    {
      var commands := NicsCommandList(device, nodePid, faultType, pattern, patternArgs, faultArgs,
                                      protocol, dstPorts, srcPorts, enable);
      if commands.Failure? {
        return Fail(commands.error);
      }
      RunCommands(commands.value, enable);
      outcome := Pass;
    }

    /** inject_nics with this injector's interface, namespace and settings. */
    method InjectFault(pattern: string, patternArgs: ArgList, enable: bool) returns (outcome: Outcome<Error>)
      requires Valid()
      modifies this
      ensures trace == old(trace) + Perform(inject(pattern, patternArgs, enable)).events
      ensures outcome == Perform(inject(pattern, patternArgs, enable)).outcome
    {
      outcome := InjectNics(fault.device, fault.pid, fault.faultType, pattern, patternArgs, fault.faultArgs,
                            fault.protocol, fault.dstPorts, fault.srcPorts, enable);
      assert inject(pattern, patternArgs, enable) == FaultStep(fault, pattern, patternArgs, enable);
    }

    /** The fault on, and then, unless that raised, off again. */
    method Toggle(pattern: string, patternArgs: ArgList) returns (outcome: Outcome<Error>)
      requires Valid()
      modifies this
      ensures trace == old(trace) + Play(TogglePlan(inject, pattern, patternArgs)).events
      ensures outcome == Play(TogglePlan(inject, pattern, patternArgs)).outcome
    {
      ghost var on := inject(pattern, patternArgs, true);
      ghost var off := inject(pattern, patternArgs, false);
      PlayPair(on, off);
      outcome := InjectFault(pattern, patternArgs, true);
      if outcome.Fail? {
        return;
      }
      ghost var between := trace;
      outcome := InjectFault(pattern, patternArgs, false);
      assert trace == old(trace) + (Perform(on).events + Perform(off).events);
    }

    /** _inject_burst_pattern, for `n` bursts. */
    method BurstPattern(n: nat) returns (outcome: Outcome<Error>)
      requires Valid()
      modifies this
      ensures trace == old(trace) + Play(BurstPlan(inject, fault, n)).events
      ensures outcome == Play(BurstPlan(inject, fault, n)).outcome
    {
      if fault.patternArgs.None? {
        PlayOne(Raise(NoneError(PatternArgs)));
        return Fail(NoneError(PatternArgs));
      }
      if |fault.patternArgs.value| < 2 {
        PlayOne(Raise(IndexError(PatternArgs, |fault.patternArgs.value|)));
        return Fail(IndexError(PatternArgs, |fault.patternArgs.value|));
      }
      ghost var blocks := Pairs(n, inject("persistent", Some([""]), true), inject("persistent", Some([""]), false));
      assert BurstPlan(inject, fault, n) == Flatten(blocks);
      outcome := Pass;
      LoopStart(blocks);
      for i := 0 to n
        invariant trace == old(trace) + Play(Flatten(blocks[..i])).events
        invariant Play(Flatten(blocks[..i])).outcome == Pass && outcome == Pass
      {
        ghost var before := trace;
        outcome := Toggle("persistent", Some([""]));
        assert blocks[i] == TogglePlan(inject, "persistent", Some([""]));
        LoopTrace(blocks, i, old(trace), before, trace);
        if outcome.Fail? {
          return;
        }
      }
      LoopDone(blocks);
    }

    /** One step of the degradation: the random fault on and off at the
        current percentage, then the next percentage. */
    method DegradationStep(d: LinkDegradation, n: nat, k: nat, value: string)
      returns (outcome: Outcome<Error>, next: string)
      requires Valid()
      requires k < n && value == DegradationText(d, n, k)
      requires k > 0 ==> ParseInt(d.startText).Some? && ParseInt(d.stepText).Some?
      modifies this
      ensures trace == old(trace) + Play(DegradationBlock(inject, d, n, k)).events
      ensures outcome == Play(DegradationBlock(inject, d, n, k)).outcome
      ensures outcome.Pass? ==> ParseInt(d.startText).Some? && ParseInt(d.stepText).Some?
      ensures outcome.Pass? && k + 1 < n ==> next == DegradationText(d, n, k + 1)
    {
      ghost var toggle := TogglePlan(inject, "random", Some([value]));
      PlayAppend(toggle, UpdateCheck(d, value));
      next := value;
      outcome := Toggle("random", Some([value]));
      if outcome.Fail? {
        return;
      }
      var current := ToInt(value);
      if current.Failure? {
        PlayOne(Raise(current.error));
        return Fail(current.error), next;
      }
      var step := ToInt(d.stepText);
      if step.Failure? {
        PlayOne(Raise(step.error));
        return Fail(step.error), next;
      }
      next := IntToString(if current.value + step.value > d.end then d.end else current.value + step.value);
      UpdateFollowsIntensities(d, n, k, current.value, step.value);
      assert toggle + [] == toggle;
    }

    /** _inject_degradation_pattern, for `n` steps. */
    method DegradationPattern(n: nat) returns (outcome: Outcome<Error>)
      requires Valid()
      modifies this
      ensures trace == old(trace) + Play(DegradationPlan(inject, fault, n)).events
      ensures outcome == Play(DegradationPlan(inject, fault, n)).outcome
    {
      var settings := DegradationOf(fault.patternArgs);
      if settings.Failure? {
        PlayOne(Raise(settings.error));
        return Fail(settings.error);
      }
      var d := settings.value;
      ghost var blocks := DegradationBlocks(inject, d, n);
      assert DegradationPlan(inject, fault, n) == Flatten(blocks);
      var value := d.startText;
      outcome := Pass;
      LoopStart(blocks);
      for i := 0 to n
        invariant trace == old(trace) + Play(Flatten(blocks[..i])).events
        invariant Play(Flatten(blocks[..i])).outcome == Pass && outcome == Pass
        invariant i < n ==> value == DegradationText(d, n, i)
        invariant i > 0 ==> ParseInt(d.startText).Some? && ParseInt(d.stepText).Some?
      {
        ghost var before := trace;
        outcome, value := DegradationStep(d, n, i, value);
        assert blocks[i] == DegradationBlock(inject, d, n, i);
        LoopTrace(blocks, i, old(trace), before, trace);
        if outcome.Fail? {
          return;
        }
      }
      LoopDone(blocks);
    }

    /** _inject_persistent_or_random_pattern */
    method PersistentOrRandomPattern() returns (outcome: Outcome<Error>)
      requires Valid()
      modifies this
      ensures trace == old(trace) + Play(SinglePlan(inject, fault)).events
      ensures outcome == Play(SinglePlan(inject, fault)).outcome
    {
      outcome := Toggle(fault.pattern, fault.patternArgs);
    }

    /** do_injection, with `n` the number of bursts or degradation steps its
        timing allows. */
    method DoInjection(n: nat) returns (outcome: Outcome<Error>)
      requires Valid()
      modifies this
      ensures trace == old(trace) + Play(InjectionPlan(inject, fault, n)).events
      ensures outcome == Play(InjectionPlan(inject, fault, n)).outcome
    {
      if Contains(fault.pattern, "burst") {
        outcome := BurstPattern(n);
      } else if Contains(fault.pattern, "degradation") {
        outcome := DegradationPattern(n);
      } else {
        outcome := PersistentOrRandomPattern();
      }
    }
  }

  /** The update at the end of step k yields the text of step k + 1. */
  lemma UpdateFollowsIntensities(d: LinkDegradation, n: nat, k: nat, current: int, step: int)
    requires k < n
    requires ParseInt(DegradationText(d, n, k)) == Some(current) && ParseInt(d.stepText) == Some(step)
    requires ParseInt(d.startText).Some?
    ensures k + 1 < n ==> IntToString(if current + step > d.end then d.end else current + step) == DegradationText(d, n, k + 1)
  {
    if k + 1 < n {
      var start := ParseInt(d.startText).value;
      var values := Intensities(start, step, d.end, n);
      if k >= 1 {
        ParseIntOfIntToString(values[k]);
      }
      assert current == values[k];
      IntensitiesStep(start, step, d.end, n, k);
    }
  }
}
