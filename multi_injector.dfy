/** MultiInjector: injects several tc-netem faults into a node's links at
    once, by loading a tcset configuration into the node and later loading
    its reset, following the fault's pattern: a burst or one persistent
    fault. */
module MultiInjectors {
  import opened Wrappers
  import opened Text
  import opened Args
  import opened NodeCommands
  import opened MultiConfig
  import opened Schedule

  /** One call of execute_command_for_node: the command runs in the node's
      network and pid namespaces. */
  function MultiStep(pid: Option<nat>, enable: bool, command: string): Step {
    Exec(enable, [Some(MultiCommandLine(pid, command))])
  }

  /** The burst: after the timing is read, `n` times the configuration
      loaded and then reset. */
  function MultiBurstPlan(pid: Option<nat>, patternArgs: ArgList, inject: string, eject: string, n: nat): seq<Step> {
    match BurstTiming(patternArgs)
    case Failure(e) => [Raise(e)]
    case Success(_) => Flatten(Pairs(n, MultiStep(pid, true, inject), MultiStep(pid, false, eject)))
  }

  /** The persistent fault: the configuration loaded, then reset. */
  function MultiPersistentPlan(pid: Option<nat>, inject: string, eject: string): seq<Step> {
    [MultiStep(pid, true, inject), MultiStep(pid, false, eject)]
  }

  /** do_injection: the pattern is matched exactly; an unknown pattern runs
      nothing. */
  function MultiInjectionPlan(pid: Option<nat>, pattern: string, patternArgs: ArgList,
                              inject: string, eject: string, n: nat): seq<Step> {
    if pattern == "burst" then MultiBurstPlan(pid, patternArgs, inject, eject, n)
    else if pattern == "persistent" then MultiPersistentPlan(pid, inject, eject)
    else []
  }

  /** A burst whose timing is readable loads and resets the configuration
      exactly `n` times, strictly alternating and starting with the load. */
  lemma MultiBurstAlternates(pid: Option<nat>, patternArgs: ArgList, inject: string, eject: string, n: nat)
    requires BurstTiming(patternArgs).Success?
    ensures var run := Play(MultiBurstPlan(pid, patternArgs, inject, eject, n));
      && run.outcome == Pass
      && |run.events| == 2 * n
      && (forall k :: 0 <= k < n ==> run.events[2 * k] == Event(true, Some(MultiCommandLine(pid, inject))))
      && (forall k :: 0 <= k < n ==> run.events[2 * k + 1] == Event(false, Some(MultiCommandLine(pid, eject))))
  {
    SingleCommandPairs(n, Some(MultiCommandLine(pid, inject)), Some(MultiCommandLine(pid, eject)));
  }

  /** A burst whose timing is not readable raises before running anything. */
  lemma MultiBurstRaises(pid: Option<nat>, patternArgs: ArgList, inject: string, eject: string, n: nat)
    requires BurstTiming(patternArgs).Failure?
    ensures Play(MultiBurstPlan(pid, patternArgs, inject, eject, n)) == Run([], Fail(BurstTiming(patternArgs).error))
  {
    PlayOne(Raise(BurstTiming(patternArgs).error));
  }

  // ---------------------------------------------------------------------------
  // The pipeline of the tcset commands

  /** The loading command, as the corrected rewrite runs it: one pipe, from
      the echo of the settings into tcset, both stages in the namespaces. */
  lemma InjectCommandKeepsPipeline(pid: Option<nat>, settingsText: string)
    requires '|' !in settingsText
    ensures MultiNamespace(pid) + " " <= MultiCommandLine(pid, TcsetImport(settingsText))
    ensures CharCount(MultiCommandLine(pid, TcsetImport(settingsText)), '|') == 1
  {
    TcsetImportIsPipeline(settingsText);
    MultiCommandLineKeepsPipes(pid, TcsetImport(settingsText));
  }

  /** The resetting command, likewise, when no interface name holds a `|`. */
  lemma EjectCommandKeepsPipeline(pid: Option<nat>, names: seq<string>)
    requires forall i :: 0 <= i < |names| ==> '|' !in names[i]
    ensures MultiNamespace(pid) + " " <= MultiCommandLine(pid, TcsetImport(ResetJson(names)))
    ensures CharCount(MultiCommandLine(pid, TcsetImport(ResetJson(names))), '|') == 1
  {
    ResetJsonHasNoPipe(names);
    InjectCommandKeepsPipeline(pid, ResetJson(names));
  }

  /** The loading command as the source's rewrite runs it: the pipe is
      gone, so the namespace prefix and tcset's words are echoed with the
      settings, and tcset never runs. */
  lemma InjectCommandAsWrittenLosesPipe(pid: Option<nat>, settingsText: string)
    requires '|' !in settingsText
    ensures MultiCommandLineAsWritten(pid, TcsetImport(settingsText))
            == MultiNamespace(pid) + " " + EchoSettings(settingsText) + MultiNamespace(pid) + " " + TcsetStage
    ensures '|' !in MultiCommandLineAsWritten(pid, TcsetImport(settingsText))
  {
    TcsetImportIsPipeline(settingsText);
    AsWrittenOnePipe(pid, EchoSettings(settingsText), TcsetStage);
    AsWrittenDropsEveryPipe(pid, TcsetImport(settingsText));
  }

  // ---------------------------------------------------------------------------
  // The injector

  class MultiInjector {
    const pid: Option<nat>
    const pattern: string
    const patternArgs: ArgList
    /** The command that loads the configuration, and the one that loads its reset. */
    const injectCommand: string
    const ejectCommand: string
    /** The commands run so far, in order. */
    var trace: seq<Event>

    /** The configuration is given as its text and its interface names,
        each once, in the order the parsed configuration lists them. */
    constructor(pid: Option<nat>, pattern: string, patternArgs: ArgList, configText: string, names: seq<string>)
      requires forall i, j :: 0 <= i < j < |names| ==> names[i] != names[j]
      ensures this.pid == pid && this.pattern == pattern && this.patternArgs == patternArgs
      ensures injectCommand == TcsetImport(configText)
      ensures ejectCommand == TcsetImport(ResetJson(names))
      ensures trace == []
    {
      this.pid := pid;
      this.pattern := pattern;
      this.patternArgs := patternArgs;
      var start, end, _ := BuildStartCommand(configText, names);
      injectCommand := start;
      ejectCommand := end;
      trace := [];
    }

    /** execute_command_for_node for this injector's node. */
    method Execute(command: string, enable: bool)
      modifies this
      ensures trace == old(trace) + [Event(enable, Some(MultiCommandLine(pid, command)))]
    {
      var full := MultiNamespace(pid) + " " + command;
      trace := trace + [Event(enable, Some(PipeRewrite(MultiNamespace(pid), full)))];
    }

    /** _inject_burst, for `n` bursts. */
    method Burst(n: nat) returns (outcome: Outcome<Error>)
      modifies this
      ensures trace == old(trace) + Play(MultiBurstPlan(pid, patternArgs, injectCommand, ejectCommand, n)).events
      ensures outcome == Play(MultiBurstPlan(pid, patternArgs, injectCommand, ejectCommand, n)).outcome
    {
      var timing := BurstTiming(patternArgs);
      if timing.Failure? {
        PlayOne(Raise(timing.error));
        return Fail(timing.error);
      }
      ghost var on := MultiStep(pid, true, injectCommand);
      ghost var off := MultiStep(pid, false, ejectCommand);
      ghost var events := Perform(on).events + Perform(off).events;
      assert events == [Event(true, Some(MultiCommandLine(pid, injectCommand))),
                        Event(false, Some(MultiCommandLine(pid, ejectCommand)))];
      for i := 0 to n
        invariant trace == old(trace) + Repeat(i, events)
      {
        Execute(injectCommand, true);
        Execute(ejectCommand, false);
      }
      PairsRun(n, on, off);
      outcome := Pass;
    }

    /** _inject_persistent */
    method Persistent() returns (outcome: Outcome<Error>)
      modifies this
      ensures trace == old(trace) + Play(MultiPersistentPlan(pid, injectCommand, ejectCommand)).events
      ensures outcome == Play(MultiPersistentPlan(pid, injectCommand, ejectCommand)).outcome
    {
      PlayPair(MultiStep(pid, true, injectCommand), MultiStep(pid, false, ejectCommand));
      Execute(injectCommand, true);
      Execute(ejectCommand, false);
      outcome := Pass;
    }

    /** do_injection, with `n` the number of bursts its timing allows. */
    method DoInjection(n: nat) returns (outcome: Outcome<Error>)
      modifies this
      ensures trace == old(trace) + Play(MultiInjectionPlan(pid, pattern, patternArgs, injectCommand, ejectCommand, n)).events
      ensures outcome == Play(MultiInjectionPlan(pid, pattern, patternArgs, injectCommand, ejectCommand, n)).outcome
    {
      if pattern == "burst" {
        outcome := Burst(n);
      } else if pattern == "persistent" {
        outcome := Persistent();
      } else {
        outcome := Pass;
      }
    }
  }
}
