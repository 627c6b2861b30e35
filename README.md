# Fault injectors of the emulated network, in Dafny

This project models the fault injectors of `mininet/fault_injectors.py`. Each injector
turns a fault description into shell commands and runs them inside a node's
namespaces (`nsenter`), following the fault's pattern.

- A **LinkInjector** puts one `tc`/`ifconfig` fault on one interface. Its patterns are:
  - **burst**: the persistent fault switched on and off repeatedly;
  - **degradation**: a random fault whose percentage grows step by step;
  - **persistent or random**: one fault, on and then off.
- A **NodeInjector** runs a `custom` start/end command pair or a `stress_cpu`
  stress-ng command in a node. Its patterns are burst, degradation and persistent.
- A **MultiInjector** loads a tcset configuration into a node, and later loads
  the configuration that resets every interface it names.

The model is organised as follows.

- **Building commands.** LinkCommands builds the `tc` commands:
  - `make_nics_injection_command`;
  - `make_filtered_nics_injection_commands`;
  - the dispatch of `inject_nics`.

  Each is a pure function that returns a result or the exception the source raises. The
  loops of the source (port filters, the redirect rewrite) are methods proved equal to
  those functions.
- **Running commands.** Schedule models a run of an injector coroutine:
  - A run is a *plan*: a sequence of steps. A step either runs some commands with an
    enable flag or raises an exception.
  - `Play` performs a plan. It emits one `Event(enable, command)` per command that
    runs and stops at the first exception.
- **The injectors.** LinkInjectors, NodeInjectors and MultiInjectors are classes
  with a `trace` field: the commands run so far, in order.
  - Their pattern methods hold the source's loops.
  - Each method is proved to append exactly `Play(plan).events` to the trace and to end
    the way `Play(plan)` ends, where `plan` is a function of the injector's settings.
  - Lemmas about the plans state what the source promises: a burst alternates on and off
    exactly `n` times, and the k-th degradation step runs at the k-th intensity.
- **Time.** Sleeping takes no time in the model. The number of bursts or
  degradation steps, which the source computes from the injection time, is the
  parameter `n`.
- **Errors.** The model's own error names `Error` stand for Python's exceptions:
  - `NoneError` is the `TypeError` of `len()`, indexing or `in` on `None`, and the `AttributeError` of a method call on `None` (`.count` at line 881);
  - `IndexError` and `KeyError` keep their names;
  - `ValueError` is `int()` of a non-number;
  - `ZeroDivisionError` keeps its name;
  - `PlaceholderError` is `str.format` with too few arguments.
- **Argument lists.** An argument list is `Option<seq<string>>`, so that `None` and `[]`
  stay distinct, and its elements are strings. Where the source itself puts an integer
  into a list (the default degradation start `0`), the model puts its decimal text, which
  the source reads back only through `int()` or `str()`. `ParseIntOfIntToString` proves that
  `int(str(n)) == n`.

## Model

| member | source | states |
|---|---|---|
| Text.ParseIntOfIntToString | mininet/fault_injectors.py:327-329 | `int(str(n)) == n` for every integer, which lets an integer the source puts into an argument list and later reads with `int()` or `str()` stand there as its decimal text |
| Text.ReplaceSingleChar | mininet/fault_injectors.py:745-746 | `str.replace` of a character that occurs once splices the replacement in its place |
| Text.ReplaceCharKeepsCount | mininet/fault_injectors.py:745-746 | replacing each `\|` by `\|` followed by text without `\|` keeps the number of pipes |
| Text.CountZeroIffAbsent | mininet/fault_injectors.py:880-881 | `str.count` is 0 exactly when the pattern does not occur |
| Args.ArgAt | mininet/fault_injectors.py:397-406 | `args[i]` succeeds exactly for a list with more than `i` elements and gives its i-th element; `None` raises the TypeError case, a short list the IndexError case |
| Args.ArgCount | mininet/fault_injectors.py:789 | `len(args)` succeeds exactly on a list, with its length |
| Args.ToInt | mininet/fault_injectors.py:794-795 | `int(text)` succeeds exactly when the text is a decimal integer, and then gives that integer; otherwise it raises ValueError of that text |
| Args.ToIntOfIntToString | mininet/fault_injectors.py:327 | `int(str(n))` gives back `n` |
| Args.BurstTiming | mininet/fault_injectors.py:788-797 | node and multi-fault burst timing: `None` raises; fewer than two arguments give 1000/2000 ms; otherwise it succeeds exactly when both arguments parse and the period is not 0 (the burst count divides by it), giving both values |
| LinkCommands.ProtocolNumber | mininet/fault_injectors.py:216-224 | the protocol table lookup succeeds exactly for a protocol of the table and gives its number, else raises KeyError |
| LinkCommands.RedirectMode | mininet/fault_injectors.py:407-412 | the mirred action is always "mirror" or "redirect", and "mirror" exactly when the second fault argument says so |
| LinkCommands.BottleneckSizes | mininet/fault_injectors.py:440-451 | the tbf burst and limit: 1600/3000 by default, the second fault argument as burst, the third as limit |
| LinkCommands.MakeNicsInjectionCommand | mininet/fault_injectors.py:374-485 | every command built starts with the node's nsenter prefix; a pattern that is neither random nor persistent builds no command |
| LinkCommands.RandomCommand | mininet/fault_injectors.py:393-434 | the random branch's command starts with the prefix |
| LinkCommands.PersistentCommand | mininet/fault_injectors.py:436-481 | the persistent branch's command starts with the prefix |
| LinkCommands.MakeFilteredNicsInjectionCommands | mininet/fault_injectors.py:487-594 | the builder's appends and rewrite loop yield exactly the list `FilteredCommands` describes, errors included |
| LinkCommands.FilterList | mininet/fault_injectors.py:503-530 | the head of the enable list is the root qdisc followed by the protocol's port filters |
| LinkCommands.AppendPortFilters | mininet/fault_injectors.py:515-526 | the per-port loop appends one filter per port, in the list's order |
| LinkCommands.AppendInjection | mininet/fault_injectors.py:533-583 | the pattern branch appends the injecting qdisc or rewrites for redirect exactly as `AddInjection` says |
| LinkCommands.RewriteForRedirect | mininet/fault_injectors.py:558-575 | the persistent-redirect loop rebuilds the list as `RedirectRewrite` says |
| LinkCommands.BaseCommandHasNoP | mininet/fault_injectors.py:569-572 | the nsenter prefix holds no `p`, so the `parent 1:0` rewrite never touches it |
| LinkCommands.ProtocolFilterAt | mininet/fault_injectors.py:515-530 | each filter is the protocol filter with its own port match |
| LinkCommands.ProtocolFiltersLayout | mininet/fault_injectors.py:515-530 | the filters are the destination-port filters in order, then the source-port filters in order, and a single catch-all exactly when both port lists are None |
| LinkCommands.FiltersStartWithBaseAndMatch | mininet/fault_injectors.py:515-530 | every filter starts with the prefix and contains "match", so the redirect rewrite reaches all of them |
| LinkCommands.FilterCommandHasMatch | mininet/fault_injectors.py:515-530 | one filter command starts with the prefix and contains "match" |
| LinkCommands.RewriteKeepsPrefix | mininet/fault_injectors.py:558-575 | the redirect rewrite keeps the namespace prefix of every command |
| LinkCommands.AddInjectionKeepsPrefix | mininet/fault_injectors.py:533-583 | the end of the list keeps the prefix of its head |
| LinkCommands.FilteredCommandsStartWithBase | mininet/fault_injectors.py:487-594 | every command of the filtered builder starts with the namespace prefix |
| LinkCommands.AddInjectionExtendsHead | mininet/fault_injectors.py:533-557 | outside the persistent redirect the head is kept and one injecting qdisc is added exactly when the pattern is random or persistent |
| LinkCommands.AddInjectionRedirect | mininet/fault_injectors.py:558-575 | the persistent redirect succeeds exactly when a destination is given, and then rewrites the head with the mirred action |
| LinkCommands.EnabledListLayout | mininet/fault_injectors.py:503-557 | on enable: the protocol is in the table, the list is the root qdisc, then the filters in order, then one injecting qdisc exactly for random or persistent; a random fault's qdisc under class 1:1 is the netem delay with reorder `100 - int(fault_pattern_args[0])`, or the netem fault at `fault_pattern_args[0]` percent |
| LinkCommands.EnabledPersistentQdisc | mininet/fault_injectors.py:545-583 | on enable, a persistent fault other than a redirect ends the list with its qdisc under class 1:1: the tbf bottleneck with its rate, burst and limit, the netem delay of the first fault argument, or the netem fault at 100% |
| LinkCommands.RedirectListLayout | mininet/fault_injectors.py:558-575 | on a persistent redirect the ingress qdisc stays first, the list keeps its length, and every filter moves under the ingress qdisc with the mirred action; when the device name holds "match" the ingress qdisc is rewritten too, as the source's substring test does |
| LinkCommands.RewriteLayout | mininet/fault_injectors.py:558-575 | the rewrite leaves the first command alone unless it holds "match", and rewrites each filter in place |
| LinkCommands.DisableIsOneDelete | mininet/fault_injectors.py:584-590 | disabling a filtered fault is one delete of what enabling added: the ingress qdisc for redirects, the prio root otherwise, and it never raises |
| LinkCommands.NicsCommandsStartWithBase | mininet/fault_injectors.py:596-677 | every command inject_nics runs starts with the namespace prefix, a target protocol was given, and the "any" protocol runs exactly one command |
| LinkCommands.RandomDelayReorder | mininet/fault_injectors.py:394-399 | a random delay with in-order share `p` reorders the other `100 - p` percent, with the latency from the first fault argument |
| LinkCommands.FilteredDelayReorder | mininet/fault_injectors.py:533-540 | on the filtered path a random delay with in-order share `p` always builds, and its last command is the netem delay under class 1:1 reordering `100 - p` percent |
| LinkInjectors.NicsStep | mininet/fault_injectors.py:596-677 | one inject_nics call runs its commands with the caller's enable flag |
| LinkInjectors.NicsStepStartsWithBase | mininet/fault_injectors.py:628-677 | every command inject_nics runs is present and starts with the namespace prefix |
| LinkInjectors.NicsCommandList | mininet/fault_injectors.py:596-677 | the dispatch: no protocol raises; "any" builds one unfiltered command, where no command is an error; otherwise the filtered list; equals `NicsCommands` |
| LinkInjectors.BurstAlternates | mininet/fault_injectors.py:241-274 | a burst without two pattern arguments raises before running anything; otherwise it is exactly `n` pairs of the persistent fault on, then off |
| LinkInjectors.DegradationEnd | mininet/fault_injectors.py:280-284 | the end of a link degradation is the fourth argument capped at 100, or 100 |
| LinkInjectors.DegradationOf | mininet/fault_injectors.py:280-298 | the settings keep the start and step texts (defaults "0" and "5"), cap the end at 100, and refuse a zero step length |
| LinkInjectors.DegradationFollowsIntensities | mininet/fault_injectors.py:300-329 | with integer start and step, step k injects the k-th intensity of the clamped ramp, never above 100 after the first step, and its update never raises |
| LinkInjectors.UpdateFollowsIntensities | mininet/fault_injectors.py:327-329 | the update at the end of step k, clamped at the end value, yields the text of step k + 1 |
| LinkInjectors.DegradationAlternates | mininet/fault_injectors.py:307-329 | a degradation with integer settings is `n` pairs of the random fault on and off at the k-th percentage |
| LinkInjectors.LinkInjector.constructor | mininet/fault_injectors.py:172-224 | the injector keeps its fault and starts with an empty trace |
| LinkInjectors.LinkInjector.RunCommands | mininet/fault_injectors.py:663-677 | the commands are run one by one, in order, with the enable flag |
| LinkInjectors.LinkInjector.InjectNics | mininet/fault_injectors.py:596-677 | inject_nics appends the events of its step, or nothing when it raises |
| LinkInjectors.LinkInjector.InjectFault | mininet/fault_injectors.py:259-262 | inject_nics on the injector's own interface and settings |
| LinkInjectors.LinkInjector.Toggle | mininet/fault_injectors.py:338-352 | the fault on, then off unless enabling raised |
| LinkInjectors.LinkInjector.BurstPattern | mininet/fault_injectors.py:241-274 | the burst loop appends exactly the events of the burst plan and ends as it does |
| LinkInjectors.LinkInjector.DegradationStep | mininet/fault_injectors.py:313-329 | one degradation step runs its block and hands the next step its percentage text |
| LinkInjectors.LinkInjector.DegradationPattern | mininet/fault_injectors.py:276-331 | the degradation loop appends exactly the events of the degradation plan and ends as it does |
| LinkInjectors.LinkInjector.PersistentOrRandomPattern | mininet/fault_injectors.py:333-352 | one fault with the injector's own pattern, on then off |
| LinkInjectors.LinkInjector.DoInjection | mininet/fault_injectors.py:357-372 | the pattern is chosen by substring, burst before degradation, anything else persistent or random |
| Schedule.PlayStopsAtRaise | mininet/fault_injectors.py:596-677 | nothing runs after an exception |
| Schedule.PlayPassIffNoRaise | mininet/fault_injectors.py:596-677 | a run ends normally exactly when no step raises, and then every command ran |
| Schedule.LoopStopsAtRaise | mininet/fault_injectors.py:255-274 | once an iteration raises, the rest of the loop runs nothing |
| Schedule.PairsAlternate | mininet/fault_injectors.py:255-274 | `n` bursts are 2n steps: enable at even positions, disable at odd ones |
| Schedule.PairsRun | mininet/fault_injectors.py:139-143 | a burst whose steps both run emits `n` copies of their commands |
| Schedule.SingleCommandPairs | mininet/fault_injectors.py:811-815 | with one command per step the events alternate on and off `n` times |
| Schedule.BurstStopsAtFirstRaise | mininet/fault_injectors.py:255-274 | a burst whose enable raises runs nothing; one whose disable raises stops after the first enable |
| Schedule.FlattenTwoStepBlocks | mininet/fault_injectors.py:307-329 | a loop of two-step iterations puts iteration k at positions 2k and 2k + 1 |
| Schedule.NextIntensity | mininet/fault_injectors.py:895-896 | the next intensity is `min(value + step, end)`: never above the end, never above the current value plus the step, and one of the two |
| Schedule.IntensitiesStep | mininet/fault_injectors.py:895-896 | each intensity follows from the one before it |
| Schedule.IntensitiesPrefix | mininet/fault_injectors.py:887-896 | running longer does not change the earlier intensities |
| Schedule.IntensitiesBounded | mininet/fault_injectors.py:895-896 | after the first step no intensity exceeds the end value |
| Schedule.IntensitiesClosedForm | mininet/fault_injectors.py:895-896 | with a non-negative step, step k runs at `min(start + k * step, end)` |
| Schedule.IntensitiesNonDecreasing | mininet/fault_injectors.py:895-896 | with a non-negative step the intensities never decrease after the first step, and never at all when the start does not exceed the end (a start above the end drops to the end at the first update) |
| NodeCommands.PidText | mininet/fault_injectors.py:741 | `str(pid)` holds no pipe |
| NodeCommands.NamespacesHaveNoPipe | mininet/fault_injectors.py:100 | neither nsenter prefix holds a pipe |
| NodeCommands.AsWrittenDropsEveryPipe | mininet/fault_injectors.py:745-746 | as written, the rewrite leaves no pipe in any command line |
| NodeCommands.AsWrittenOnePipe | mininet/fault_injectors.py:745-746 | as written, `a \| b` runs as `a`, then the nsenter words, then `b`, all as one command |
| NodeCommands.AsWrittenSplice | mininet/fault_injectors.py:105-106 | the as-written rewrite of a command with one pipe splices the prefix in its place |
| NodeCommands.PipeRewriteKeepsPipeline | mininet/fault_injectors.py:745-746 | corrected, the line starts in the namespaces, keeps every pipe, and each stage after a pipe starts in the namespaces |
| NodeCommands.PipeRewriteKeepsPrefix | mininet/fault_injectors.py:741-746 | corrected, the line starts with the namespace prefix |
| NodeCommands.PipeRewriteKeepsCount | mininet/fault_injectors.py:745-746 | corrected, the line holds as many pipes as the command |
| NodeCommands.PipeRewritePrefixesStages | mininet/fault_injectors.py:745-746 | corrected, every pipe is followed by the namespace prefix |
| NodeCommands.NodeCommandLineKeepsPipes | mininet/fault_injectors.py:741-746 | a node command line starts in the node's namespaces and keeps the command's pipes |
| NodeCommands.MultiCommandLineKeepsPipes | mininet/fault_injectors.py:100-106 | a multi-fault command line starts in the namespaces and keeps the command's pipes |
| NodeCommands.CustomCommands | mininet/fault_injectors.py:800-809 | custom start and end: both from two or more arguments, only a start from one, neither from none; `None` arguments raise |
| NodeCommands.PersistentEmptyArgsRaise | mininet/fault_injectors.py:924-932 | as written, empty fault arguments raise IndexError where the burst selection gives no commands |
| NodeCommands.PersistentAsWrittenAlwaysHasStart | mininet/fault_injectors.py:924-936 | as written, a persistent custom fault that does not raise always has a start command, so the "no commands" branch is dead |
| NodeCommands.PersistentAgreesOnNonEmpty | mininet/fault_injectors.py:922-936 | on every non-empty or `None` argument list the persistent selection as written agrees with the burst's |
| NodeCommands.FormatOne | mininet/fault_injectors.py:881-888 | `format` of a template with one value succeeds exactly with at most one `{}`; without one the template is unchanged; with more it raises |
| NodeCommands.FormatOneSplices | mininet/fault_injectors.py:888 | a template with one `{}` and no other brace gets the value spliced in its place |
| NodeInjectors.NodeLine | mininet/fault_injectors.py:729-746 | no command runs nothing; a command runs in the node's namespaces with its pipes kept (corrected, Findings row 1: the pipe is kept) |
| NodeInjectors.StressPercent | mininet/fault_injectors.py:820-824 | the stress percentage is the first fault argument, or 50 without one; `None` arguments raise |
| NodeInjectors.NodePulse | mininet/fault_injectors.py:799-841 | custom faults use the custom start/end selection, stress faults the stress command with no end command, other types run nothing (corrected, Findings rows 1 and 2: the pipe is kept, and empty fault arguments run no command) |
| NodeInjectors.NodeBurstAlternates | mininet/fault_injectors.py:785-841 | a readable burst runs its start and end commands `n` times, alternating; a stress burst's end is the dummy call (corrected, Findings row 1: the pipe is kept) |
| NodeInjectors.NodeDegradationOf | mininet/fault_injectors.py:846-866 | each setting is its argument's integer or its default (end 100, start 0, step 5), the end uncapped, a zero step length refused |
| NodeInjectors.NodeIntensities | mininet/fault_injectors.py:887-896 | one intensity per step |
| NodeInjectors.NodeRamp | mininet/fault_injectors.py:869-881 | a custom degradation needs a start template (none raises on `.count`), stress ramps its stress command, other types run nothing |
| NodeInjectors.StressRampFollowsIntensities | mininet/fault_injectors.py:899-914 | a stress degradation runs `n` pairs: the stress command at the k-th intensity, then the dummy call |
| NodeInjectors.CustomRampSplices | mininet/fault_injectors.py:887-896 | a one-placeholder template runs at step k with the k-th intensity spliced in, then the end command |
| NodeInjectors.CustomRampTooManyPlaceholders | mininet/fault_injectors.py:880-888 | a template with several `{}` is only logged, then raises at the first step before anything runs |
| NodeInjectors.NodeEndNotCapped | mininet/fault_injectors.py:846-863 | settings written out in full are read back as given, whatever the integers, so a node degradation's end above 100 is kept |
| NodeInjectors.NodeInjector.constructor | mininet/fault_injectors.py:683-705 | the injector keeps its fault and starts with an empty trace |
| NodeInjectors.NodeInjector.Execute | mininet/fault_injectors.py:729-765 | one event per call, carrying the node's command line, or no command (corrected, Findings row 1: the pipe is kept) |
| NodeInjectors.NodeInjector.Pulses | mininet/fault_injectors.py:811-815 | `n` times the start command, then the end command (corrected, Findings row 1: the pipe is kept) |
| NodeInjectors.NodeInjector.Burst | mininet/fault_injectors.py:785-841 | the burst appends exactly the events of its plan and ends as it does (corrected, Findings row 1: the pipe is kept) |
| NodeInjectors.NodeInjector.RampStep | mininet/fault_injectors.py:887-914 | one degradation step appends its block's events (corrected, Findings row 1: the pipe is kept) |
| NodeInjectors.NodeInjector.Degradation | mininet/fault_injectors.py:843-916 | the degradation loop appends exactly the events of its plan and ends as it does (corrected, Findings row 1: the pipe is kept) |
| NodeInjectors.NodeInjector.Persistent | mininet/fault_injectors.py:918-963 | the persistent fault appends exactly the events of its plan (corrected, Findings rows 1 and 2: the pipe is kept, and empty fault arguments run no command) |
| NodeInjectors.NodeInjector.DoInjection | mininet/fault_injectors.py:965-980 | the pattern is matched exactly: burst, degradation, persistent, anything else runs nothing (corrected, Findings row 1: the pipe is kept) |
| MultiConfig.ResetConfig | mininet/fault_injectors.py:76-84 | the reset names exactly the configuration's interfaces, each with both directions emptied |
| MultiConfig.BuildResetConfig | mininet/fault_injectors.py:81-82 | the loop over the interface names builds exactly that reset |
| MultiConfig.ResetIdempotent | mininet/fault_injectors.py:76-84 | resetting a reset gives the same reset |
| MultiConfig.ResetCoversConfig | mininet/fault_injectors.py:73-84 | the reset names every interface of the configuration and nothing else |
| MultiConfig.ResetJsonNamesEveryInterface | mininet/fault_injectors.py:84 | the serialised reset holds an entry for every interface name |
| MultiConfig.ResetJsonHasNoPipe | mininet/fault_injectors.py:84-86 | the serialised reset holds no pipe when no interface name does |
| MultiConfig.BuildStartCommand | mininet/fault_injectors.py:70-87 | for distinct interface names (the keys of the parsed configuration), the start command loads the configuration into tcset; the end command loads the reset of all its interfaces |
| MultiConfig.TcsetImportIsPipeline | mininet/fault_injectors.py:71 | the tcset import is one pipeline of two stages: the echo of the settings into tcset |
| MultiInjectors.MultiBurstAlternates | mininet/fault_injectors.py:125-143 | a readable burst loads and resets the configuration `n` times, alternating, starting with the load (corrected, Findings row 1: the pipe is kept) |
| MultiInjectors.MultiBurstRaises | mininet/fault_injectors.py:128-137 | a burst whose timing cannot be read raises before running anything |
| MultiInjectors.InjectCommandKeepsPipeline | mininet/fault_injectors.py:100-106 | corrected, the load runs in the namespaces with its one pipe into tcset kept |
| MultiInjectors.EjectCommandKeepsPipeline | mininet/fault_injectors.py:84-106 | corrected, the reset likewise keeps its one pipe |
| MultiInjectors.InjectCommandAsWrittenLosesPipe | mininet/fault_injectors.py:105-106 | as written, the load echoes the settings together with tcset's words, and tcset never runs |
| MultiInjectors.MultiInjector.constructor | mininet/fault_injectors.py:40-68 | the inject command loads the configuration, the eject command its reset, and the trace is empty |
| MultiInjectors.MultiInjector.Execute | mininet/fault_injectors.py:94-122 | one event per call, carrying the command line in the node's namespaces (corrected, Findings row 1: the pipe is kept) |
| MultiInjectors.MultiInjector.Burst | mininet/fault_injectors.py:125-143 | the burst appends exactly the events of its plan and ends as it does (corrected, Findings row 1: the pipe is kept) |
| MultiInjectors.MultiInjector.Persistent | mininet/fault_injectors.py:145-150 | the configuration loaded, then reset (corrected, Findings row 1: the pipe is kept) |
| MultiInjectors.MultiInjector.DoInjection | mininet/fault_injectors.py:152-166 | the pattern is matched exactly: burst, persistent, anything else runs nothing (corrected, Findings row 1: the pipe is kept) |

## Left out

- Sleeps, the clock, `asyncio` scheduling and the pre- and post-injection waits are not modelled. The number of bursts or degradation steps, which the source computes from the injection time with float division, is the parameter `n`.
- LinkInjectors.BurstPlan: the burst's `float()` parsing of its duration and period, and the division by a zero period, are not modelled. The model only checks that two pattern arguments are present.
- NodeInjectors.StressPercent: the persistent stress fault reads its percentage with `float()`; the model reads an integer, as the burst does.
- NodeInjectors.NodePulse: the stress-ng command is the parameter `StressCommand`. It stands for the `-t` duration, which differs by pattern: `int(max(1, burst_duration))` for a burst (818, 831), `int(degradation_step_length)` for a degradation step (909), and `injection_time` for a persistent fault (956). It also stands for the CPU split over the node's cgroup share (`math.ceil`, float division), for reading the cgroup files, and for a cgroup without a limit, which raises in the source.
- MultiConfig.BuildStartCommand: `json.loads` is not modelled. The configuration is given as its text and its interface names. `json.dumps` is modelled for the reset only, with names taken as needing no escaping.
- Args.ToInt: `int()` is modelled on optional sign and decimal digits; surrounding whitespace and digit-group underscores are not accepted.
- NodeCommands.FormatOne: `str.format` is modelled for `{}` fields only; other braces, named fields and format specs are not.
- Logging (`FaultLogger`, `log`), the return codes of `subprocess.run`, `go()`, the getters, and the `isinstance` warnings are left out: they decide nothing about which commands run.
- NodeInjectors.NodeLine, NodeInjectors.NodePulse, and through them every trace of NodeInjectors.NodeInjector and MultiInjectors.MultiInjector: the traces record the corrected commands, not the ones the source runs. A `|` is kept and followed by the nsenter prefix, where the source removes it (Findings row 1). A persistent custom fault with empty fault arguments runs no command, where the source raises IndexError (Findings row 2). The as-written behaviour is stated by NodeCommands.AsWrittenOnePipe, MultiInjectors.InjectCommandAsWrittenLosesPipe and NodeCommands.PersistentEmptyArgsRaise.
- Argument list elements are text only. Where the source concatenates a fault argument with `+` (lines 398, 439, 450-451, 539-540, 556-557 and 583), a non-string argument raises TypeError; the model does not represent non-string elements, so it does not model that TypeError.
- LinkInjectors.LinkFault: the pattern is a string, so `fault_pattern=None`, which raises TypeError at `'burst' in None` (line 361), is not modelled; the same holds for the fault type and the device.
- The random percentage of a redirect is computed exactly and truncated, instead of through a float product.

## Findings

| source | as written | input that shows it | evidently intended | confidence | as-written member | corrected member |
|---|---|---|---|---|---|---|
| mininet/fault_injectors.py:105-106, 745-746 | every `\|` of the command line is replaced by the nsenter prefix, which removes the pipe | the MultiInjector's own inject command `echo '<config>' \| tcset /dev/stdin --import-setting`: tcset never runs and its words are echoed | keep the pipe and run the stage after it in the namespaces (`\|` followed by the prefix) | not executed | NodeCommands.AsWrittenOnePipe, MultiInjectors.InjectCommandAsWrittenLosesPipe | NodeCommands.PipeRewriteKeepsPipeline, MultiInjectors.InjectCommandKeepsPipeline |
| mininet/fault_injectors.py:924-932 | the "fewer than 2" test comes before the "fewer than 1" test, so an empty list reads `fault_args[0]` | a persistent custom fault with `fault_args=[]` raises IndexError; the "no commands" branch is dead | run no command, as the burst and degradation selections do | not executed | NodeCommands.PersistentEmptyArgsRaise | NodeCommands.CustomCommands |
