/** The command lines NodeInjector and MultiInjector run inside a node's
    namespaces (their execute_command_for_node methods), and how a
    NodeInjector picks and fills in its custom commands. */
module NodeCommands {
  import opened Wrappers
  import opened Text
  import opened Args

  /** `str(pid)`: the decimal pid, or "None" when there is none. */
  function PidText(pid: Option<nat>): (text: string)
    ensures '|' !in text
  {
    match pid
    case None => "None"
    case Some(p) =>
      NatToStringDigits(p);
      var digits := NatToString(p);
      assert forall i :: 0 <= i < |digits| ==> digits[i] != '|';
      digits
  }

  /** The namespaces a NodeInjector's commands run in: network, pid and cgroup. */
  function NodeNamespace(pid: Option<nat>): string {
    "nsenter --target " + PidText(pid) + " --net --pid --cgroup"
  }

  /** The namespaces a MultiInjector's commands run in: network and pid. */
  function MultiNamespace(pid: Option<nat>): string {
    "nsenter --target " + PidText(pid) + " --net --pid"
  }

  lemma NamespacesHaveNoPipe(pid: Option<nat>)
    ensures '|' !in NodeNamespace(pid) && '|' !in MultiNamespace(pid)
  {
  }

  // ---------------------------------------------------------------------------
  // The pipe rewrite, as written

  /** The rewrite as the source writes it: every `|` is replaced by the
      namespace prefix. */
  function PipeRewriteAsWritten(full: string, replacement: string): string {
    if Contains(full, "|") then ReplaceAll(full, "|", replacement) else full
  }

  /** NodeInjector's command line as written: the prefix replaces each `|`
      without a trailing space. */
  function NodeCommandLineAsWritten(pid: Option<nat>, command: string): string {
    PipeRewriteAsWritten(NodeNamespace(pid) + " " + command, NodeNamespace(pid))
  }

  /** MultiInjector's command line as written. */
  function MultiCommandLineAsWritten(pid: Option<nat>, command: string): string {
    PipeRewriteAsWritten(MultiNamespace(pid) + " " + command, MultiNamespace(pid) + " ")
  }

  /** As written, no pipe survives: whatever followed a `|` is no longer fed
      the output of what preceded it, but becomes more arguments of the first
      command. */
  lemma AsWrittenDropsEveryPipe(pid: Option<nat>, command: string)
    ensures '|' !in NodeCommandLineAsWritten(pid, command)
    ensures '|' !in MultiCommandLineAsWritten(pid, command)
  {
    var node := NodeNamespace(pid) + " " + command;
    var multi := MultiNamespace(pid) + " " + command;
    if Contains(node, "|") {
      ReplaceCharRemovesIt(node, '|', NodeNamespace(pid));
    } else {
      ContainsCharIff(node, '|');
    }
    if Contains(multi, "|") {
      ReplaceCharRemovesIt(multi, '|', MultiNamespace(pid) + " ");
    } else {
      ContainsCharIff(multi, '|');
    }
  }

  /** As written, a command `a | b` runs as `a` followed by the prefix and
      `b`, all of them arguments of the first program: for `echo x | cat`,
      `cat` is printed by echo instead of reading its output. */
  lemma AsWrittenOnePipe(pid: Option<nat>, a: string, b: string)
    requires '|' !in a && '|' !in b
    ensures NodeCommandLineAsWritten(pid, a + "|" + b) == NodeNamespace(pid) + " " + a + NodeNamespace(pid) + b
    ensures MultiCommandLineAsWritten(pid, a + "|" + b) == MultiNamespace(pid) + " " + a + MultiNamespace(pid) + " " + b
  {
    NamespacesHaveNoPipe(pid);
    AsWrittenSplice(NodeNamespace(pid), a, b, NodeNamespace(pid));
    AsWrittenSplice(MultiNamespace(pid), a, b, MultiNamespace(pid) + " ");
  }

  /** The as-written rewrite of `prefix a|b`, with a single pipe. */
  lemma AsWrittenSplice(prefix: string, a: string, b: string, replacement: string)
    requires '|' !in prefix && '|' !in a && '|' !in b
    ensures PipeRewriteAsWritten(prefix + " " + (a + "|" + b), replacement) == prefix + " " + a + replacement + b
  {
    var head := prefix + " " + a;
    assert '|' !in head;
    assert prefix + " " + (a + "|" + b) == head + ['|'] + b;
    ContainsPiece(head, "|", b);
    ReplaceSingleChar(head, '|', b, replacement);
  }

  // ---------------------------------------------------------------------------
  // The pipe rewrite, corrected

  /** Every `|` keeps its place and is followed by the namespace prefix, so
      each stage of a pipeline runs in the node's namespaces. */
  function PipeRewrite(namespace: string, full: string): string {
    if Contains(full, "|") then ReplaceAll(full, "|", "| " + namespace + " ") else full
  }

  /** The command line a NodeInjector runs for `command`. */
  function NodeCommandLine(pid: Option<nat>, command: string): string {
    PipeRewrite(NodeNamespace(pid), NodeNamespace(pid) + " " + command)
  }

  /** The command line a MultiInjector runs for `command`. */
  function MultiCommandLine(pid: Option<nat>, command: string): string {
    PipeRewrite(MultiNamespace(pid), MultiNamespace(pid) + " " + command)
  }

  /** The corrected rewrite starts in the namespaces, keeps every pipe, puts
      the namespace prefix after each of them, and leaves a command without a
      pipe as the prefix followed by the command. */
  lemma PipeRewriteKeepsPipeline(namespace: string, command: string)
    requires '|' !in namespace
    ensures var line := PipeRewrite(namespace, namespace + " " + command);
      && namespace + " " <= line
      && CharCount(line, '|') == CharCount(command, '|')
      && (forall i :: 0 <= i < |line| && line[i] == '|' ==>
            i + 1 + |namespace| + 2 <= |line| && line[i + 1..i + 1 + |namespace| + 2] == " " + namespace + " ")
      && ('|' !in command ==> line == namespace + " " + command)
  {
    PipeRewriteKeepsPrefix(namespace, command);
    PipeRewriteKeepsCount(namespace, command);
    PipeRewritePrefixesStages(namespace, command);
    if '|' !in command {
      var full := namespace + " " + command;
      assert '|' !in full;
      ContainsCharIff(full, '|');
    }
  }

  lemma PipeRewriteKeepsPrefix(namespace: string, command: string)
    requires '|' !in namespace
    ensures namespace + " " <= PipeRewrite(namespace, namespace + " " + command)
  {
    var prefix := namespace + " ";
    assert '|' !in prefix;
    if Contains(prefix + command, "|") {
      ReplaceAfterPrefix(prefix, command, "|", "| " + namespace + " ");
    }
  }

  lemma PipeRewriteKeepsCount(namespace: string, command: string)
    requires '|' !in namespace
    ensures CharCount(PipeRewrite(namespace, namespace + " " + command), '|') == CharCount(command, '|')
  {
    var prefix := namespace + " ";
    var rest := " " + namespace + " ";
    assert "| " + namespace + " " == ['|'] + rest;
    assert '|' !in rest;
    CharCountAppend(prefix, command, '|');
    CharCountZero(prefix, '|');
    if Contains(prefix + command, "|") {
      ReplaceCharKeepsCount(prefix + command, '|', rest);
    }
  }

  lemma PipeRewritePrefixesStages(namespace: string, command: string)
    requires '|' !in namespace
    ensures var line := PipeRewrite(namespace, namespace + " " + command);
      forall i :: 0 <= i < |line| && line[i] == '|' ==>
        i + 1 + |namespace| + 2 <= |line| && line[i + 1..i + 1 + |namespace| + 2] == " " + namespace + " "
  {
    var full := namespace + " " + command;
    var rest := " " + namespace + " ";
    assert "| " + namespace + " " == ['|'] + rest;
    assert '|' !in rest;
    var line := PipeRewrite(namespace, full);
    if Contains(full, "|") {
      forall i | 0 <= i < |line| && line[i] == '|'
        ensures i + 1 + |rest| <= |line| && line[i + 1..i + 1 + |rest|] == rest
      {
        ReplaceCharFollowedBy(full, '|', rest, i);
      }
    } else {
      ContainsCharIff(full, '|');
    }
  }

  /** Corrected, a node command keeps its pipeline. */
  lemma NodeCommandLineKeepsPipes(pid: Option<nat>, command: string)
    ensures NodeNamespace(pid) + " " <= NodeCommandLine(pid, command)
    ensures CharCount(NodeCommandLine(pid, command), '|') == CharCount(command, '|')
  {
    PipeRewriteKeepsPipeline(NodeNamespace(pid), command);
  }

  /** Corrected, a multi-fault command keeps its pipeline. */
  lemma MultiCommandLineKeepsPipes(pid: Option<nat>, command: string)
    ensures MultiNamespace(pid) + " " <= MultiCommandLine(pid, command)
    ensures CharCount(MultiCommandLine(pid, command), '|') == CharCount(command, '|')
  {
    PipeRewriteKeepsPipeline(MultiNamespace(pid), command);
  }

  // ---------------------------------------------------------------------------
  // Custom commands of a NodeInjector

  /** The (start, end) commands of a custom burst or degradation: both from
      `fault_args` when it has two, only the start when it has one, neither
      when it is empty; `len(None)` raises. */
  function CustomCommands(faultArgs: ArgList): (r: Result<(Option<string>, Option<string>), Error>)
    ensures r.Failure? <==> faultArgs.None?
    ensures r.Failure? ==> r.error == NoneError(FaultArgs)
    ensures r.Success? && |faultArgs.value| >= 2 ==> r.value == (Some(faultArgs.value[0]), Some(faultArgs.value[1]))
    ensures r.Success? && |faultArgs.value| == 1 ==> r.value == (Some(faultArgs.value[0]), None)
    ensures r.Success? && |faultArgs.value| == 0 ==> r.value == (None, None)
  {
    var count :- ArgCount(faultArgs, FaultArgs);
    var args := faultArgs.value;
    if count >= 2 then Success((Some(args[0]), Some(args[1])))
    else if count >= 1 then Success((Some(args[0]), None))
    else Success((None, None))
  }

  /** The selection of a custom persistent fault as written: the "fewer than
      two" test comes first, so the "fewer than one" branch is never taken and
      an empty list is indexed. */
  function PersistentCustomCommandsAsWritten(faultArgs: ArgList): Result<(Option<string>, Option<string>), Error> {
    var count :- ArgCount(faultArgs, FaultArgs);
    if count < 2 then
      var start :- ArgAt(faultArgs, 0, FaultArgs);
      Success((Some(start), None))
    else if count < 1 then
      Success((None, None))
    else
      Success((Some(faultArgs.value[0]), Some(faultArgs.value[1])))
  }

  /** As written, an empty `fault_args` raises IndexError where the other
      patterns run no command, and no input reaches the "no commands" branch. */
  lemma PersistentEmptyArgsRaise()
    ensures PersistentCustomCommandsAsWritten(Some([])) == Failure(IndexError(FaultArgs, 0))
    ensures CustomCommands(Some([])) == Success((None, None))
  {
  }

  lemma PersistentAsWrittenAlwaysHasStart(faultArgs: ArgList)
    requires PersistentCustomCommandsAsWritten(faultArgs).Success?
    ensures PersistentCustomCommandsAsWritten(faultArgs).value.0.Some?
    ensures faultArgs.Some? && |faultArgs.value| >= 1
  {
  }

  /** On every other input the persistent selection as written is the one the
      other patterns use, which is therefore the corrected selection. */
  lemma PersistentAgreesOnNonEmpty(faultArgs: ArgList)
    requires faultArgs.None? || |faultArgs.value| > 0
    ensures PersistentCustomCommandsAsWritten(faultArgs) == CustomCommands(faultArgs)
  {
  }

  // ---------------------------------------------------------------------------
  // Filling in a degradation intensity

  /** `template.format(value)` for a template whose only replacement fields
      are `{}`: no field leaves it as it is, one is replaced by the value, and
      more than one raises, since only one value is given. */
  function FormatOne(template: string, value: string): (r: Result<string, Error>)
    ensures CountOf(template, "{}") == 0 ==> r == Success(template)
    ensures CountOf(template, "{}") > 1 ==> r == Failure(PlaceholderError(CountOf(template, "{}")))
    ensures r.Success? <==> CountOf(template, "{}") <= 1
  {
    var count := CountOf(template, "{}");
    if count == 0 then
      CountZeroIffAbsent(template, "{}");
      ReplaceAbsent(template, "{}", value);
      Success(template)
    else if count == 1 then Success(ReplaceAll(template, "{}", value))
    else Failure(PlaceholderError(count))
  }

  /** A template with one `{}` and no other brace gets the value spliced in
      where the `{}` stood. */
  lemma FormatOneSplices(before: string, after: string, value: string)
    requires '{' !in before && '}' !in before && '{' !in after && '}' !in after
    ensures FormatOne(before + "{}" + after, value) == Success(before + value + after)
  {
    var template := before + "{}" + after;
    var tail := "{}" + after;
    assert template == before + tail;
    assert tail[..2] == "{}" && tail[2..] == after;
    assert CountOf(tail, "{}") == 1 + CountOf(after, "{}");
    assert ReplaceAll(tail, "{}", value) == value + ReplaceAll(after, "{}", value);
    CountAfterPrefix(before, tail, "{}");
    CountAfterPrefix(after, [], "{}");
    assert after + [] == after;
    assert CountOf(template, "{}") == 1;
    ReplaceAfterPrefix(before, tail, "{}", value);
    ReplaceAfterPrefix(after, [], "{}", value);
    assert ReplaceAll(after, "{}", value) == after;
    assert ReplaceAll(template, "{}", value) == before + (value + after) == before + value + after;
    assert FormatOne(template, value) == Success(ReplaceAll(template, "{}", value));
  }
}
