/** The shell commands LinkInjector hands to `tc` and `ifconfig`
    (mininet/fault_injectors.py, LinkInjector.make_nics_injection_command,
    make_filtered_nics_injection_commands and the dispatch in inject_nics). */
module LinkCommands {
  import opened Wrappers
  import opened Text
  import opened Args

  /** The prefix of every command for a node: nothing when the node is not in
      a network namespace, otherwise `nsenter --target <pid> --net `. */
  function BaseCommand(pid: Option<nat>): string {
    match pid
    case None => ""
    case Some(p) => "nsenter --target " + NatToString(p) + " --net "
  }

  /** The protocol names a filter can match, with their IP protocol numbers. */
  const ProtocolTable: map<string, string> :=
    map["ICMP" := "1", "IGMP" := "2", "IP" := "4", "TCP" := "6", "UDP" := "17",
        "IPv6" := "41", "IPv6-ICMP" := "58"]

  /** `target_protocol_table[protocol]` */
  function ProtocolNumber(protocol: string): (r: Result<string, Error>)
    ensures r.Success? <==> protocol in ProtocolTable
    ensures r.Success? ==> r.value == ProtocolTable[protocol]
    ensures r.Failure? ==> r.error == KeyError(protocol)
  {
    if protocol in ProtocolTable then Success(ProtocolTable[protocol]) else Failure(KeyError(protocol))
  }

  /** The largest 32-bit random value `tc`'s `meta(random)` compares against. */
  const MaxRandom: int := 4294967295

  /** `int(4294967295 * (percentage / 100))`, computed exactly and truncated toward zero. */
  function RedirectBoundary(percentage: int): int {
    if percentage >= 0 then MaxRandom * percentage / 100 else -(MaxRandom * -percentage / 100)
  }

  /** The mirred action: `fault_args[1]` when it is "mirror" or "redirect",
      "redirect" when it is missing or anything else. */
  function RedirectMode(faultArgs: seq<string>): (mode: string)
    ensures mode == "mirror" || mode == "redirect"
    ensures mode == "mirror" <==> |faultArgs| >= 2 && faultArgs[1] == "mirror"
  {
    if |faultArgs| >= 2 && (faultArgs[1] == "mirror" || faultArgs[1] == "redirect") then faultArgs[1]
    else "redirect"
  }

  /** The tbf bottleneck's (burst, limit): 1600 and 3000 by default,
      `fault_args[1]` overrides the burst and `fault_args[2]` the limit. */
  function BottleneckSizes(faultArgs: seq<string>): (sizes: (string, string))
    ensures |faultArgs| < 2 ==> sizes == ("1600", "3000")
    ensures |faultArgs| == 2 ==> sizes == (faultArgs[1], "3000")
    ensures |faultArgs| > 2 ==> sizes == (faultArgs[1], faultArgs[2])
  {
    var burst := if |faultArgs| >= 2 then faultArgs[1] else "1600";
    var limit := if |faultArgs| > 2 then faultArgs[2] else "3000";
    (burst, limit)
  }

  // ---------------------------------------------------------------------------
  // One command for all protocols: make_nics_injection_command

  /** The ingress qdisc that redirects hang off. */
  function IngressQdisc(base: string, tcCmd: string, device: string): string {
    base + "tc qdisc " + tcCmd + " dev " + device + " handle ffff: ingress "
  }

  /** The ingress qdisc's deletion. */
  function IngressDelete(base: string, tcCmd: string, device: string): string {
    base + "tc qdisc " + tcCmd + " dev " + device + " ingress "
  }

  /** The command that injects (`tcCmd` holding "add") or removes (holding "del")
      one fault on every protocol of `device`; None when the pattern is neither
      random nor persistent, or when `tcCmd` is neither. */
  function MakeNicsInjectionCommand(pid: Option<nat>, device: string, faultType: string, pattern: string,
                                    patternArgs: ArgList, faultArgs: ArgList, tcCmd: string)
    : (r: Result<Option<string>, Error>)
    ensures r.Success? && r.value.Some? ==> BaseCommand(pid) <= r.value.value
    ensures !Contains(pattern, "random") && !Contains(pattern, "persistent") ==> r == Success(None)
  {
    var base := BaseCommand(pid);
    if Contains(pattern, "random") then RandomCommand(base, device, faultType, patternArgs, faultArgs, tcCmd)
    else if Contains(pattern, "persistent") then PersistentCommand(base, device, faultType, faultArgs, tcCmd)
    else Success(None)
  }

  /** The netem qdisc on the root of `device`, up to its discipline's parameters. */
  function NetemRoot(base: string, tcCmd: string, device: string): string {
    base + "tc qdisc " + tcCmd + " dev " + device + " root netem "
  }

  /** The random half of make_nics_injection_command: the fault hits a share of the packets. */
  function RandomCommand(base: string, device: string, faultType: string,
                         patternArgs: ArgList, faultArgs: ArgList, tcCmd: string)
    : (r: Result<Option<string>, Error>)
    ensures r.Success? && r.value.Some? ==> base <= r.value.value
  {
    if Contains(faultType, "delay") then
      var arg :- ArgAt(patternArgs, 0, PatternArgs);
      var inOrder :- ToInt(arg);
      var latency :- ArgAt(faultArgs, 0, FaultArgs);
      Success(Some(NetemRoot(base, tcCmd, device) + faultType + " " + latency + " reorder " + IntToString(100 - inOrder) + "%"))
    else if Contains(faultType, "redirect") then
      var arg :- ArgAt(patternArgs, 0, PatternArgs);
      var percentage :- ToInt(arg);
      var destination :- ArgAt(faultArgs, 0, FaultArgs);
      var mode := RedirectMode(faultArgs.value);
      if Contains(tcCmd, "add") then
        var filter := " basic match \"meta( random mask " + IntToString(MaxRandom) + " lt "
                      + IntToString(RedirectBoundary(percentage)) + " ) \" ";
        var redirect := base + "tc filter " + tcCmd + " dev " + device + " parent ffff: " + filter + " "
                        + " action mirred egress " + mode + " dev " + destination;
        Success(Some(IngressQdisc(base, tcCmd, device) + " ; " + redirect))
      else if Contains(tcCmd, "del") then
        Success(Some(IngressDelete(base, tcCmd, device)))
      else
        Success(None)
    else
      var probability :- ArgAt(patternArgs, 0, PatternArgs);
      Success(Some(NetemRoot(base, tcCmd, device) + faultType + " " + probability + "%"))
  }

  /** The persistent half of make_nics_injection_command: the fault hits every packet. */
  function PersistentCommand(base: string, device: string, faultType: string, faultArgs: ArgList, tcCmd: string)
    : (r: Result<Option<string>, Error>)
    ensures r.Success? && r.value.Some? ==> base <= r.value.value
  {
    if Contains(faultType, "delay") then
      var latency :- ArgAt(faultArgs, 0, FaultArgs);
      Success(Some(NetemRoot(base, tcCmd, device) + faultType + " " + latency))
    else if Contains(faultType, "bottleneck") then
      var _ :- ArgCount(faultArgs, FaultArgs);
      var sizes := BottleneckSizes(faultArgs.value);
      var rate :- ArgAt(faultArgs, 0, FaultArgs);
      Success(Some(base + "tc qdisc " + tcCmd + " dev " + device + " root tbf rate " + rate
                   + "kbit burst " + sizes.0 + " limit " + sizes.1))
    else if Contains(faultType, "redirect") then
      var destination :- ArgAt(faultArgs, 0, FaultArgs);
      var mode := RedirectMode(faultArgs.value);
      if Contains(tcCmd, "add") then
        var redirect := base + "tc filter " + tcCmd + " dev " + device + " parent ffff: matchall "
                        + " action mirred egress " + mode + " dev " + destination;
        Success(Some(IngressQdisc(base, tcCmd, device) + " ; " + redirect))
      else if Contains(tcCmd, "del") then
        Success(Some(IngressDelete(base, tcCmd, device)))
      else
        Success(None)
    else if Contains(faultType, "down") then
      if Contains(tcCmd, "add") then Success(Some(base + "ifconfig " + device + " down"))
      else if Contains(tcCmd, "del") then Success(Some(base + "ifconfig " + device + " up"))
      else Success(None)
    else
      Success(Some(NetemRoot(base, tcCmd, device) + faultType + " 100%"))
  }

  // ---------------------------------------------------------------------------
  // A list of commands for one protocol: make_filtered_nics_injection_commands

  /** The first command on enable: the ingress qdisc for redirects, a prio root otherwise. */
  function RootQdisc(base: string, device: string, faultType: string): string {
    if Contains(faultType, "redirect") then base + "tc qdisc add dev " + device + " handle ffff: ingress "
    else base + "tc qdisc add dev " + device + " root handle 1: prio"
  }

  /** The single command on disable: delete what RootQdisc added. */
  function RootDelete(base: string, device: string, faultType: string): string {
    if Contains(faultType, "redirect") then base + "tc qdisc del dev " + device + " ingress "
    else base + "tc qdisc del dev " + device + " root handle 1: prio"
  }

  /** A u32 filter matching the protocol, then `portMatch` (empty for the catch-all). */
  function FilterCommand(base: string, device: string, protocolNumber: string, portMatch: string): string {
    base + "tc filter add dev " + device + " parent 1:0 protocol ip prio 1 u32 "
    + "match ip protocol " + protocolNumber + " 0xff" + portMatch + " flowid 1:1"
  }

  /** The port part of a filter; `direction` is "dport" or "sport". */
  function PortMatch(direction: string, port: string): string {
    " match ip " + direction + " " + port + " 0xffff"
  }

  /** One filter per port of the list, in its order; none for None or []. */
  function PortFilters(base: string, device: string, protocolNumber: string, direction: string,
                       ports: Option<seq<string>>): seq<string>
  {
    match ports
    case None => []
    case Some(ps) =>
      seq(|ps|, i requires 0 <= i < |ps| => FilterCommand(base, device, protocolNumber, PortMatch(direction, ps[i])))
  }

  /** The filters: destination ports, then source ports, then a catch-all for the
      protocol when neither port list was given at all. */
  function ProtocolFilters(base: string, device: string, protocolNumber: string,
                           dstPorts: Option<seq<string>>, srcPorts: Option<seq<string>>): seq<string>
  {
    PortFilters(base, device, protocolNumber, "dport", dstPorts)
    + PortFilters(base, device, protocolNumber, "sport", srcPorts)
    + if dstPorts.None? && srcPorts.None? then [FilterCommand(base, device, protocolNumber, "")] else []
  }

  /** A filter moved under the ingress qdisc, with the mirred action appended. */
  function RedirectFilter(command: string, action: string): string {
    ReplaceAll(command, "parent 1:0", "parent ffff:") + action
  }

  /** The persistent-redirect rewrite: every command containing "match" is
      moved under the ingress qdisc and gets the action; the others stay. */
  function RedirectRewrite(commands: seq<string>, action: string): seq<string> {
    seq(|commands|, i requires 0 <= i < |commands| =>
      if Contains(commands[i], "match") then RedirectFilter(commands[i], action) else commands[i])
  }

  /** The qdisc that does the injecting, under the prio root's class 1:1. */
  function ChildQdisc(base: string, device: string, discipline: string): string {
    base + "tc qdisc add dev " + device + " parent 1:1 handle 2: " + discipline
  }

  /** What make_filtered_nics_injection_commands returns, or raises. */
  function FilteredCommands(pid: Option<nat>, pattern: string, patternArgs: ArgList, faultType: string,
                            faultArgs: ArgList, device: string, protocol: string,
                            dstPorts: Option<seq<string>>, srcPorts: Option<seq<string>>, enable: bool)
    : Result<seq<string>, Error>
  {
    var base := BaseCommand(pid);
    if !enable then
      Success([RootDelete(base, device, faultType)])
    else
      var number :- ProtocolNumber(protocol);
      var head := [RootQdisc(base, device, faultType)] + ProtocolFilters(base, device, number, dstPorts, srcPorts);
      AddInjection(base, device, pattern, patternArgs, faultType, faultArgs, head)
  }

  /** The end of the list on enable: the qdisc that injects the fault under the
      filters, or, for a persistent redirect, the filters moved under the ingress
      qdisc with the redirect action; nothing for any other pattern. */
  function AddInjection(base: string, device: string, pattern: string, patternArgs: ArgList,
                        faultType: string, faultArgs: ArgList, head: seq<string>)
    : Result<seq<string>, Error>
  {
    if Contains(pattern, "random") then
      var arg :- ArgAt(patternArgs, 0, PatternArgs);
      if Contains(faultType, "delay") then
        var inOrder :- ToInt(arg);
        var latency :- ArgAt(faultArgs, 0, FaultArgs);
        Success(head + [ChildQdisc(base, device, "netem " + faultType + " " + latency + " reorder "
                                                 + IntToString(100 - inOrder) + "%")])
      else
        Success(head + [ChildQdisc(base, device, "netem " + faultType + " " + arg + "%")])
    else if Contains(pattern, "persistent") then
      if Contains(faultType, "bottleneck") then
        var _ :- ArgCount(faultArgs, FaultArgs);
        var sizes := BottleneckSizes(faultArgs.value);
        var rate :- ArgAt(faultArgs, 0, FaultArgs);
        Success(head + [ChildQdisc(base, device, "tbf rate " + rate + "kbit burst " + sizes.0 + " limit " + sizes.1)])
      else if Contains(faultType, "redirect") then
        var destination :- ArgAt(faultArgs, 0, FaultArgs);
        Success(RedirectRewrite(head, RedirectAction(faultArgs.value, destination)))
      else
        var tcArg :- if Contains(faultType, "delay") then ArgAt(faultArgs, 0, FaultArgs) else Success("100%");
        Success(head + [ChildQdisc(base, device, "netem " + faultType + " " + tcArg)])
    else
      Success(head)
  }

  /** The mirred action a persistent redirect appends to its filters. */
  function RedirectAction(faultArgs: seq<string>, destination: string): string {
    " action mirred egress " + RedirectMode(faultArgs) + " dev " + destination
  }

  /** make_filtered_nics_injection_commands: builds the list by appends. */
  method MakeFilteredNicsInjectionCommands(pid: Option<nat>, pattern: string, patternArgs: ArgList,
                                           faultType: string, faultArgs: ArgList, device: string,
                                           protocol: string, dstPorts: Option<seq<string>>,
                                           srcPorts: Option<seq<string>>, enable: bool)
    returns (r: Result<seq<string>, Error>)
    ensures r == FilteredCommands(pid, pattern, patternArgs, faultType, faultArgs, device, protocol,
                                  dstPorts, srcPorts, enable)
  {
    var base := BaseCommand(pid);
    if !enable {
      return Success([RootDelete(base, device, faultType)]);
    }
    if protocol !in ProtocolTable {
      return Failure(KeyError(protocol));
    }
    var cmdList := FilterList(base, device, faultType, ProtocolTable[protocol], dstPorts, srcPorts);
    r := AppendInjection(base, device, pattern, patternArgs, faultType, faultArgs, cmdList);
  }

  /** The head of the list on enable: the root qdisc, then the port filters
      in order, then the catch-all when no port list was given. */
  method FilterList(base: string, device: string, faultType: string, number: string,
                    dstPorts: Option<seq<string>>, srcPorts: Option<seq<string>>)
    returns (cmdList: seq<string>)
    ensures cmdList == [RootQdisc(base, device, faultType)] + ProtocolFilters(base, device, number, dstPorts, srcPorts)
  {
    cmdList := [RootQdisc(base, device, faultType)];
    ghost var root := cmdList;
    ghost var dst := PortFilters(base, device, number, "dport", dstPorts);
    ghost var src := PortFilters(base, device, number, "sport", srcPorts);
    if dstPorts.Some? && |dstPorts.value| > 0 {
      cmdList := AppendPortFilters(cmdList, base, device, number, "dport", dstPorts.value);
    } else {
      assert dst == [];
    }
    assert cmdList == root + dst;
    if srcPorts.Some? && |srcPorts.value| > 0 {
      cmdList := AppendPortFilters(cmdList, base, device, number, "sport", srcPorts.value);
    } else {
      assert src == [];
    }
    assert cmdList == root + dst + src;
    if dstPorts.None? && srcPorts.None? {
      cmdList := cmdList + [FilterCommand(base, device, number, "")];
    }
    assert cmdList == root + (dst + src + if dstPorts.None? && srcPorts.None? then [FilterCommand(base, device, number, "")] else []);
  }

  /** The loop that appends one filter per port. */
  method AppendPortFilters(cmdList: seq<string>, base: string, device: string, protocolNumber: string,
                           direction: string, ports: seq<string>)
    returns (extended: seq<string>)
    ensures extended == cmdList + PortFilters(base, device, protocolNumber, direction, Some(ports))
  {
    extended := cmdList;
    for i := 0 to |ports|
      invariant extended == cmdList + PortFilters(base, device, protocolNumber, direction, Some(ports[..i]))
    {
      extended := extended + [FilterCommand(base, device, protocolNumber, PortMatch(direction, ports[i]))];
    }
    assert ports[..|ports|] == ports;
  }

  /** The pattern branch of make_filtered_nics_injection_commands. */
  method AppendInjection(base: string, device: string, pattern: string, patternArgs: ArgList,
                         faultType: string, faultArgs: ArgList, cmdList: seq<string>)
    returns (r: Result<seq<string>, Error>)
    ensures r == AddInjection(base, device, pattern, patternArgs, faultType, faultArgs, cmdList)
  {
    if Contains(pattern, "random") {
      var arg :- ArgAt(patternArgs, 0, PatternArgs);
      if Contains(faultType, "delay") {
        var inOrder :- ToInt(arg);
        var latency :- ArgAt(faultArgs, 0, FaultArgs);
        r := Success(cmdList + [ChildQdisc(base, device, "netem " + faultType + " " + latency + " reorder "
                                                         + IntToString(100 - inOrder) + "%")]);
      } else {
        r := Success(cmdList + [ChildQdisc(base, device, "netem " + faultType + " " + arg + "%")]);
      }
    } else if Contains(pattern, "persistent") {
      if Contains(faultType, "bottleneck") {
        var _ :- ArgCount(faultArgs, FaultArgs);
        var sizes := BottleneckSizes(faultArgs.value);
        var rate :- ArgAt(faultArgs, 0, FaultArgs);
        r := Success(cmdList + [ChildQdisc(base, device, "tbf rate " + rate + "kbit burst " + sizes.0
                                                         + " limit " + sizes.1)]);
      } else if Contains(faultType, "redirect") {
        var destination :- ArgAt(faultArgs, 0, FaultArgs);
        var rewritten := RewriteForRedirect(cmdList, RedirectAction(faultArgs.value, destination));
        r := Success(rewritten);
      } else {
        var tcArg := "100%";
        if Contains(faultType, "delay") {
          tcArg :- ArgAt(faultArgs, 0, FaultArgs);
        }
        r := Success(cmdList + [ChildQdisc(base, device, "netem " + faultType + " " + tcArg)]);
      }
    } else {
      r := Success(cmdList);
    }
  }

  /** The persistent-redirect loop: rebuilds the list command by command. */
  method RewriteForRedirect(cmdList: seq<string>, action: string) returns (newCmdList: seq<string>)
    ensures newCmdList == RedirectRewrite(cmdList, action)
  {
    newCmdList := [];
    for i := 0 to |cmdList|
      invariant newCmdList == RedirectRewrite(cmdList[..i], action)
    {
      if Contains(cmdList[i], "match") {
        newCmdList := newCmdList + [RedirectFilter(cmdList[i], action)];
      } else {
        newCmdList := newCmdList + [cmdList[i]];
      }
    }
    assert cmdList[..|cmdList|] == cmdList;
  }

  // ---------------------------------------------------------------------------
  // The dispatch in inject_nics

  /** The commands inject_nics runs, in order: one command for every protocol
      when the target protocol contains "any", the filtered list otherwise.
      Running a None command raises (subprocess is handed None). */
  function NicsCommands(pid: Option<nat>, device: string, faultType: string, pattern: string,
                        patternArgs: ArgList, faultArgs: ArgList, protocol: Option<string>,
                        dstPorts: Option<seq<string>>, srcPorts: Option<seq<string>>, enable: bool)
    : Result<seq<string>, Error>
  {
    match protocol
    case None => Failure(NoneError(TargetProtocol))
    case Some(name) =>
      if Contains(name, "any") then
        var command :- MakeNicsInjectionCommand(pid, device, faultType, pattern,
                                                if Truthy(patternArgs) then patternArgs else None,
                                                faultArgs, if enable then "add" else "del");
        if command.None? then Failure(NoneError(ShellCommand)) else Success([command.value])
      else
        FilteredCommands(pid, pattern, patternArgs, faultType, faultArgs, device, name, dstPorts, srcPorts, enable)
  }

  // ---------------------------------------------------------------------------
  // What the generated commands promise

  /** The ports a Python `for` over the optional list visits. */
  function PortList(ports: Option<seq<string>>): seq<string> {
    if ports.Some? then ports.value else []
  }

  /** How many filters ProtocolFilters adds: one per port, plus the catch-all
      only when neither list was given (an empty list is not "not given"). */
  function FilterCount(dstPorts: Option<seq<string>>, srcPorts: Option<seq<string>>): nat {
    |PortList(dstPorts)| + |PortList(srcPorts)| + if dstPorts.None? && srcPorts.None? then 1 else 0
  }

  /** The namespace prefix holds no 'p', so it never starts a "parent 1:0". */
  lemma BaseCommandHasNoP(pid: Option<nat>)
    ensures 'p' !in BaseCommand(pid)
  {
    if pid.Some? {
      NatToStringDigits(pid.value);
      var digits := NatToString(pid.value);
      assert forall i :: 0 <= i < |digits| ==> digits[i] != 'p';
      assert BaseCommand(pid) == "nsenter --target " + digits + " --net ";
    }
  }

  /** The port match of the filter at index `i` of ProtocolFilters. */
  function FilterPortMatch(dstPorts: Option<seq<string>>, srcPorts: Option<seq<string>>, i: nat): string {
    var dstCount := |PortList(dstPorts)|;
    if i < dstCount then PortMatch("dport", PortList(dstPorts)[i])
    else if i < dstCount + |PortList(srcPorts)| then PortMatch("sport", PortList(srcPorts)[i - dstCount])
    else ""
  }

  /** Each filter is a protocol filter with its port match. */
  lemma ProtocolFilterAt(base: string, device: string, number: string,
                         dstPorts: Option<seq<string>>, srcPorts: Option<seq<string>>, i: nat)
    requires i < |ProtocolFilters(base, device, number, dstPorts, srcPorts)|
    ensures ProtocolFilters(base, device, number, dstPorts, srcPorts)[i]
            == FilterCommand(base, device, number, FilterPortMatch(dstPorts, srcPorts, i))
  {
    var dst := PortFilters(base, device, number, "dport", dstPorts);
    var src := PortFilters(base, device, number, "sport", srcPorts);
    assert |dst| == |PortList(dstPorts)| && |src| == |PortList(srcPorts)|;
  }

  /** The filters, in order: the destination-port filters, the source-port
      filters, and the catch-all exactly when both lists are None. */
  lemma ProtocolFiltersLayout(base: string, device: string, number: string,
                              dstPorts: Option<seq<string>>, srcPorts: Option<seq<string>>)
    ensures var filters := ProtocolFilters(base, device, number, dstPorts, srcPorts);
      && |filters| == FilterCount(dstPorts, srcPorts)
      && (forall i :: 0 <= i < |PortList(dstPorts)| ==>
            filters[i] == FilterCommand(base, device, number, PortMatch("dport", PortList(dstPorts)[i])))
      && (forall j :: 0 <= j < |PortList(srcPorts)| ==>
            filters[|PortList(dstPorts)| + j] == FilterCommand(base, device, number, PortMatch("sport", PortList(srcPorts)[j])))
      && (dstPorts.None? && srcPorts.None? ==> filters == [FilterCommand(base, device, number, "")])
  {
    var dst := PortFilters(base, device, number, "dport", dstPorts);
    var src := PortFilters(base, device, number, "sport", srcPorts);
    assert |dst| == |PortList(dstPorts)| && |src| == |PortList(srcPorts)|;
  }

  /** Every filter starts with the prefix and holds "match", so the redirect
      rewrite reaches all of them. */
  lemma FiltersStartWithBaseAndMatch(base: string, device: string, number: string,
                                     dstPorts: Option<seq<string>>, srcPorts: Option<seq<string>>)
    ensures forall c :: c in ProtocolFilters(base, device, number, dstPorts, srcPorts) ==>
              base <= c && Contains(c, "match")
  {
    var filters := ProtocolFilters(base, device, number, dstPorts, srcPorts);
    forall i | 0 <= i < |filters|
      ensures base <= filters[i] && Contains(filters[i], "match")
    {
      ProtocolFilterAt(base, device, number, dstPorts, srcPorts, i);
      FilterCommandHasMatch(base, device, number, FilterPortMatch(dstPorts, srcPorts, i));
    }
  }

  lemma FilterCommandHasMatch(base: string, device: string, number: string, portMatch: string)
    ensures base <= FilterCommand(base, device, number, portMatch)
    ensures Contains(FilterCommand(base, device, number, portMatch), "match")
  {
    var before := base + "tc filter add dev " + device + " parent 1:0 protocol ip prio 1 u32 ";
    var after := " ip protocol " + number + " 0xff" + portMatch + " flowid 1:1";
    ContainsPiece(before, "match", after);
    assert FilterCommand(base, device, number, portMatch) == before + "match" + after by {
      assert "match ip protocol " == "match" + " ip protocol ";
    }
  }

  /** The redirect rewrite keeps a prefix that cannot start a "parent 1:0". */
  lemma RewriteKeepsPrefix(commands: seq<string>, action: string, base: string)
    requires 'p' !in base
    requires forall c :: c in commands ==> base <= c
    ensures forall c :: c in RedirectRewrite(commands, action) ==> base <= c
  {
    var rewritten := RedirectRewrite(commands, action);
    forall i | 0 <= i < |commands|
      ensures base <= rewritten[i]
    {
      var c := commands[i];
      assert c in commands;
      if Contains(c, "match") {
        var rest := c[|base|..];
        assert c == base + rest;
        ReplaceAfterPrefix(base, rest, "parent 1:0", "parent ffff:");
        assert rewritten[i] == base + (ReplaceAll(rest, "parent 1:0", "parent ffff:") + action);
      }
    }
  }

  /** The end of the list keeps the prefix of its head. */
  lemma AddInjectionKeepsPrefix(base: string, device: string, pattern: string, patternArgs: ArgList,
                                faultType: string, faultArgs: ArgList, head: seq<string>)
    requires 'p' !in base
    requires forall c :: c in head ==> base <= c
    requires AddInjection(base, device, pattern, patternArgs, faultType, faultArgs, head).Success?
    ensures forall c :: c in AddInjection(base, device, pattern, patternArgs, faultType, faultArgs, head).value ==>
              base <= c
  {
    if !Contains(pattern, "random") && Contains(pattern, "persistent")
       && !Contains(faultType, "bottleneck") && Contains(faultType, "redirect") {
      RewriteKeepsPrefix(head, RedirectAction(faultArgs.value, faultArgs.value[0]), base);
    }
  }

  /** Every command the filtered builder returns starts with the namespace prefix. */
  lemma FilteredCommandsStartWithBase(pid: Option<nat>, pattern: string, patternArgs: ArgList, faultType: string,
                                      faultArgs: ArgList, device: string, protocol: string,
                                      dstPorts: Option<seq<string>>, srcPorts: Option<seq<string>>, enable: bool)
    requires FilteredCommands(pid, pattern, patternArgs, faultType, faultArgs, device, protocol,
                              dstPorts, srcPorts, enable).Success?
    ensures forall c :: (c in FilteredCommands(pid, pattern, patternArgs, faultType, faultArgs, device, protocol,
                                               dstPorts, srcPorts, enable).value) ==> BaseCommand(pid) <= c
  {
    var base := BaseCommand(pid);
    if enable {
      var number := ProtocolTable[protocol];
      var head := [RootQdisc(base, device, faultType)] + ProtocolFilters(base, device, number, dstPorts, srcPorts);
      FiltersStartWithBaseAndMatch(base, device, number, dstPorts, srcPorts);
      BaseCommandHasNoP(pid);
      AddInjectionKeepsPrefix(base, device, pattern, patternArgs, faultType, faultArgs, head);
    }
  }

  /** Whether the filtered builder takes the persistent-redirect rewrite. */
  predicate IsPersistentRedirect(pattern: string, faultType: string) {
    !Contains(pattern, "random") && Contains(pattern, "persistent")
    && !Contains(faultType, "bottleneck") && Contains(faultType, "redirect")
  }

  /** Outside the persistent-redirect rewrite the head is kept as it is, and
      one injecting qdisc follows it exactly when the pattern is random or persistent. */
  lemma AddInjectionExtendsHead(base: string, device: string, pattern: string, patternArgs: ArgList,
                                faultType: string, faultArgs: ArgList, head: seq<string>)
    requires AddInjection(base, device, pattern, patternArgs, faultType, faultArgs, head).Success?
    requires !IsPersistentRedirect(pattern, faultType)
    ensures var r := AddInjection(base, device, pattern, patternArgs, faultType, faultArgs, head).value;
      && |r| == |head| + (if Contains(pattern, "random") || Contains(pattern, "persistent") then 1 else 0)
      && r[..|head|] == head
  {
  }

  /** The persistent-redirect rewrite needs a destination, and then rewrites the head. */
  lemma AddInjectionRedirect(base: string, device: string, pattern: string, patternArgs: ArgList,
                             faultType: string, faultArgs: ArgList, head: seq<string>)
    requires IsPersistentRedirect(pattern, faultType)
    ensures var r := AddInjection(base, device, pattern, patternArgs, faultType, faultArgs, head);
      && (r.Success? <==> faultArgs.Some? && |faultArgs.value| > 0)
      && (r.Success? ==> r.value == RedirectRewrite(head, RedirectAction(faultArgs.value, faultArgs.value[0])))
  {
  }

  /** The injecting qdisc that ends the list for a random fault: the netem
      delay with its reorder share, or the netem fault at the given percentage,
      under the prio root's class 1:1. */
  lemma AddInjectionLastRandom(base: string, device: string, pattern: string, patternArgs: ArgList,
                         faultType: string, faultArgs: ArgList, head: seq<string>)
    requires AddInjection(base, device, pattern, patternArgs, faultType, faultArgs, head).Success?
    requires !IsPersistentRedirect(pattern, faultType)
    ensures var r := AddInjection(base, device, pattern, patternArgs, faultType, faultArgs, head).value;
      && (Contains(pattern, "random") ==> patternArgs.Some? && |patternArgs.value| > 0)
      && (Contains(pattern, "random") && Contains(faultType, "delay") ==>
            && ParseInt(patternArgs.value[0]).Some? && faultArgs.Some? && |faultArgs.value| > 0
            && r[|r| - 1] == ChildQdisc(base, device, "netem " + faultType + " " + faultArgs.value[0] + " reorder "
                                                     + IntToString(100 - ParseInt(patternArgs.value[0]).value) + "%"))
      && (Contains(pattern, "random") && !Contains(faultType, "delay") ==>
            r[|r| - 1] == ChildQdisc(base, device, "netem " + faultType + " " + patternArgs.value[0] + "%"))
  {
  }

  /** The injecting qdisc that ends the list for a persistent (non-random)
      pattern outside the redirect rewrite: the tbf bottleneck, the netem delay
      of the first fault argument, or the netem fault at 100%. */
  lemma AddInjectionLastPersistent(base: string, device: string, pattern: string, patternArgs: ArgList,
                                   faultType: string, faultArgs: ArgList, head: seq<string>)
    requires AddInjection(base, device, pattern, patternArgs, faultType, faultArgs, head).Success?
    requires !IsPersistentRedirect(pattern, faultType)
    ensures var r := AddInjection(base, device, pattern, patternArgs, faultType, faultArgs, head).value;
      var persistent := !Contains(pattern, "random") && Contains(pattern, "persistent");
      && (persistent && Contains(faultType, "bottleneck") ==>
            && faultArgs.Some? && |faultArgs.value| > 0
            && r[|r| - 1] == ChildQdisc(base, device, "tbf rate " + faultArgs.value[0] + "kbit burst "
                                                     + BottleneckSizes(faultArgs.value).0 + " limit "
                                                     + BottleneckSizes(faultArgs.value).1))
      && (persistent && !Contains(faultType, "bottleneck") && Contains(faultType, "delay") ==>
            && faultArgs.Some? && |faultArgs.value| > 0
            && r[|r| - 1] == ChildQdisc(base, device, "netem " + faultType + " " + faultArgs.value[0]))
      && (persistent && !Contains(faultType, "bottleneck") && !Contains(faultType, "delay") ==>
            r[|r| - 1] == ChildQdisc(base, device, "netem " + faultType + " 100%"))
  {
  }

  /** On enable, outside the persistent-redirect rewrite: the root qdisc (ingress
      for redirect types, a prio root otherwise), then the filters in order, then
      one injecting qdisc exactly when the pattern is random or persistent; for a
      random fault that qdisc is the netem delay with its reorder share, or the
      netem fault at the given percentage. */
  lemma EnabledListLayout(pid: Option<nat>, pattern: string, patternArgs: ArgList, faultType: string,
                          faultArgs: ArgList, device: string, protocol: string,
                          dstPorts: Option<seq<string>>, srcPorts: Option<seq<string>>)
    requires FilteredCommands(pid, pattern, patternArgs, faultType, faultArgs, device, protocol,
                              dstPorts, srcPorts, true).Success?
    requires !IsPersistentRedirect(pattern, faultType)
    ensures protocol in ProtocolTable
    ensures var r := FilteredCommands(pid, pattern, patternArgs, faultType, faultArgs, device, protocol,
                                      dstPorts, srcPorts, true).value;
      var base := BaseCommand(pid);
      && |r| == 1 + FilterCount(dstPorts, srcPorts)
                + (if Contains(pattern, "random") || Contains(pattern, "persistent") then 1 else 0)
      && r[0] == RootQdisc(base, device, faultType)
      && r[1..1 + FilterCount(dstPorts, srcPorts)] == ProtocolFilters(base, device, ProtocolTable[protocol], dstPorts, srcPorts)
    ensures var r := FilteredCommands(pid, pattern, patternArgs, faultType, faultArgs, device, protocol,
                                      dstPorts, srcPorts, true).value;
      var base := BaseCommand(pid);
      && (Contains(pattern, "random") ==> patternArgs.Some? && |patternArgs.value| > 0)
      && (Contains(pattern, "random") && Contains(faultType, "delay") ==>
            && ParseInt(patternArgs.value[0]).Some? && faultArgs.Some? && |faultArgs.value| > 0
            && r[|r| - 1] == ChildQdisc(base, device, "netem " + faultType + " " + faultArgs.value[0] + " reorder "
                                                     + IntToString(100 - ParseInt(patternArgs.value[0]).value) + "%"))
      && (Contains(pattern, "random") && !Contains(faultType, "delay") ==>
            r[|r| - 1] == ChildQdisc(base, device, "netem " + faultType + " " + patternArgs.value[0] + "%"))
  {
    var base := BaseCommand(pid);
    var number := ProtocolTable[protocol];
    var filters := ProtocolFilters(base, device, number, dstPorts, srcPorts);
    var head := [RootQdisc(base, device, faultType)] + filters;
    assert FilteredCommands(pid, pattern, patternArgs, faultType, faultArgs, device, protocol, dstPorts, srcPorts, true)
        == AddInjection(base, device, pattern, patternArgs, faultType, faultArgs, head);
    ProtocolFiltersLayout(base, device, number, dstPorts, srcPorts);
    AddInjectionExtendsHead(base, device, pattern, patternArgs, faultType, faultArgs, head);
    AddInjectionLastRandom(base, device, pattern, patternArgs, faultType, faultArgs, head);
    var r := AddInjection(base, device, pattern, patternArgs, faultType, faultArgs, head).value;
    assert r[..|head|] == head;
    assert r[0] == head[0];
    assert r[1..|head|] == head[1..] == filters;
  }

  /** On enable, a persistent fault other than a redirect ends the list with
      its qdisc under the prio root's class 1:1: the tbf bottleneck, the
      netem delay of the first fault argument, or the netem fault at 100%. */
  lemma EnabledPersistentQdisc(pid: Option<nat>, pattern: string, patternArgs: ArgList, faultType: string,
                               faultArgs: ArgList, device: string, protocol: string,
                               dstPorts: Option<seq<string>>, srcPorts: Option<seq<string>>)
    requires FilteredCommands(pid, pattern, patternArgs, faultType, faultArgs, device, protocol,
                              dstPorts, srcPorts, true).Success?
    requires !Contains(pattern, "random") && Contains(pattern, "persistent")
    requires !IsPersistentRedirect(pattern, faultType)
    ensures var r := FilteredCommands(pid, pattern, patternArgs, faultType, faultArgs, device, protocol,
                                      dstPorts, srcPorts, true).value;
      var base := BaseCommand(pid);
      && |r| == 2 + FilterCount(dstPorts, srcPorts)
      && (Contains(faultType, "bottleneck") ==>
            && faultArgs.Some? && |faultArgs.value| > 0
            && r[|r| - 1] == ChildQdisc(base, device, "tbf rate " + faultArgs.value[0] + "kbit burst "
                                                     + BottleneckSizes(faultArgs.value).0 + " limit "
                                                     + BottleneckSizes(faultArgs.value).1))
      && (!Contains(faultType, "bottleneck") && Contains(faultType, "delay") ==>
            && faultArgs.Some? && |faultArgs.value| > 0
            && r[|r| - 1] == ChildQdisc(base, device, "netem " + faultType + " " + faultArgs.value[0]))
      && (!Contains(faultType, "bottleneck") && !Contains(faultType, "delay") ==>
            r[|r| - 1] == ChildQdisc(base, device, "netem " + faultType + " 100%"))
  {
    EnabledListLayout(pid, pattern, patternArgs, faultType, faultArgs, device, protocol, dstPorts, srcPorts);
    var base := BaseCommand(pid);
    var head := [RootQdisc(base, device, faultType)] + ProtocolFilters(base, device, ProtocolTable[protocol], dstPorts, srcPorts);
    assert FilteredCommands(pid, pattern, patternArgs, faultType, faultArgs, device, protocol, dstPorts, srcPorts, true)
        == AddInjection(base, device, pattern, patternArgs, faultType, faultArgs, head);
    AddInjectionLastRandom(base, device, pattern, patternArgs, faultType, faultArgs, head);
    AddInjectionLastPersistent(base, device, pattern, patternArgs, faultType, faultArgs, head);
  }

  /** The random delay's qdisc, appended to any head. */
  lemma AddRandomDelay(base: string, device: string, faultType: string, p: int, rest: seq<string>,
                       latency: string, moreFaultArgs: seq<string>, head: seq<string>)
    requires Contains(faultType, "delay")
    ensures AddInjection(base, device, "random", Some([IntToString(p)] + rest), faultType,
                         Some([latency] + moreFaultArgs), head)
            == Success(head + [ChildQdisc(base, device, "netem " + faultType + " " + latency + " reorder "
                                                        + IntToString(100 - p) + "%")])
  {
    assert Contains("random", "random") by {
      assert StartsWith("random", "random");
    }
    assert ArgAt(Some([IntToString(p)] + rest), 0, PatternArgs) == Success(IntToString(p));
    ToIntOfIntToString(p);
    assert ArgAt(Some([latency] + moreFaultArgs), 0, FaultArgs) == Success(latency);
  }

  /** On the filtered path too, a random delay lets `p` percent of the
      packets through in order and reorders the other `100 - p` percent. */
  lemma FilteredDelayReorder(pid: Option<nat>, device: string, faultType: string, p: int, rest: seq<string>,
                             latency: string, moreFaultArgs: seq<string>, protocol: string,
                             dstPorts: Option<seq<string>>, srcPorts: Option<seq<string>>)
    requires Contains(faultType, "delay") && protocol in ProtocolTable
    ensures var r := FilteredCommands(pid, "random", Some([IntToString(p)] + rest), faultType,
                                      Some([latency] + moreFaultArgs), device, protocol, dstPorts, srcPorts, true);
      && r.Success?
      && r.value[|r.value| - 1] == ChildQdisc(BaseCommand(pid), device, "netem " + faultType + " " + latency
                                                                      + " reorder " + IntToString(100 - p) + "%")
  {
    var base := BaseCommand(pid);
    var head := [RootQdisc(base, device, faultType)] + ProtocolFilters(base, device, ProtocolTable[protocol], dstPorts, srcPorts);
    AddRandomDelay(base, device, faultType, p, rest, latency, moreFaultArgs, head);
    assert FilteredCommands(pid, "random", Some([IntToString(p)] + rest), faultType, Some([latency] + moreFaultArgs),
                            device, protocol, dstPorts, srcPorts, true)
        == AddInjection(base, device, "random", Some([IntToString(p)] + rest), faultType,
                        Some([latency] + moreFaultArgs), head);
  }

  /** On enable with a persistent redirect: the ingress qdisc stays first, the
      list keeps its length, and every filter is moved under the ingress qdisc and
      carries the mirred action. A device name holding "match" makes the ingress
      qdisc a target of the rewrite too. */
  lemma RedirectListLayout(pid: Option<nat>, pattern: string, patternArgs: ArgList, faultType: string,
                           faultArgs: ArgList, device: string, protocol: string,
                           dstPorts: Option<seq<string>>, srcPorts: Option<seq<string>>)
    requires FilteredCommands(pid, pattern, patternArgs, faultType, faultArgs, device, protocol,
                              dstPorts, srcPorts, true).Success?
    requires IsPersistentRedirect(pattern, faultType)
    ensures protocol in ProtocolTable && faultArgs.Some? && |faultArgs.value| > 0
    ensures var r := FilteredCommands(pid, pattern, patternArgs, faultType, faultArgs, device, protocol,
                                      dstPorts, srcPorts, true).value;
      var base := BaseCommand(pid);
      var filters := ProtocolFilters(base, device, ProtocolTable[protocol], dstPorts, srcPorts);
      var action := RedirectAction(faultArgs.value, faultArgs.value[0]);
      var root := base + "tc qdisc add dev " + device + " handle ffff: ingress ";
      && |r| == 1 + FilterCount(dstPorts, srcPorts)
      && r[0] == (if Contains(root, "match") then RedirectFilter(root, action) else root)
      && (forall i :: 0 <= i < |filters| ==> r[1 + i] == RedirectFilter(filters[i], action))
  {
    var base := BaseCommand(pid);
    var number := ProtocolTable[protocol];
    var filters := ProtocolFilters(base, device, number, dstPorts, srcPorts);
    var head := [RootQdisc(base, device, faultType)] + filters;
    var action := RedirectAction(faultArgs.value, faultArgs.value[0]);
    assert FilteredCommands(pid, pattern, patternArgs, faultType, faultArgs, device, protocol,
                            dstPorts, srcPorts, true).value == RedirectRewrite(head, action) by {
      AddInjectionRedirect(base, device, pattern, patternArgs, faultType, faultArgs, head);
    }
    ProtocolFiltersLayout(base, device, number, dstPorts, srcPorts);
    FiltersStartWithBaseAndMatch(base, device, number, dstPorts, srcPorts);
    RewriteLayout(RootQdisc(base, device, faultType), filters, action);
  }

  /** The redirect rewrite of a head followed by filters, which all hold "match":
      the head stays unless it holds "match" itself, and every filter is rewritten. */
  lemma RewriteLayout(first: string, filters: seq<string>, action: string)
    requires forall c :: c in filters ==> Contains(c, "match")
    ensures var r := RedirectRewrite([first] + filters, action);
      && |r| == 1 + |filters|
      && r[0] == (if Contains(first, "match") then RedirectFilter(first, action) else first)
      && (forall i :: 0 <= i < |filters| ==> r[1 + i] == RedirectFilter(filters[i], action))
  {
    var head := [first] + filters;
    var r := RedirectRewrite(head, action);
    assert head[0] == first;
    assert r[0] == (if Contains(head[0], "match") then RedirectFilter(head[0], action) else head[0]);
    forall i | 0 <= i < |filters|
      ensures r[1 + i] == RedirectFilter(filters[i], action)
    {
      assert head[1 + i] == filters[i] && filters[i] in filters;
    }
  }

  /** Disabling, on the filtered path, is a single delete of what enabling added:
      the ingress qdisc for redirect types, the prio root otherwise. */
  lemma DisableIsOneDelete(pid: Option<nat>, device: string, faultType: string, pattern: string,
                           patternArgs: ArgList, faultArgs: ArgList, protocol: string,
                           dstPorts: Option<seq<string>>, srcPorts: Option<seq<string>>)
    requires !Contains(protocol, "any")
    ensures var r := NicsCommands(pid, device, faultType, pattern, patternArgs, faultArgs, Some(protocol),
                                  dstPorts, srcPorts, false);
      var base := BaseCommand(pid);
      && r.Success? && |r.value| == 1
      && r.value[0] == (if Contains(faultType, "redirect") then base + "tc qdisc del dev " + device + " ingress "
                        else base + "tc qdisc del dev " + device + " root handle 1: prio")
  {
  }

  /** Every command inject_nics runs starts with the namespace prefix, and the
      all-protocols path runs exactly one. */
  lemma NicsCommandsStartWithBase(pid: Option<nat>, device: string, faultType: string, pattern: string,
                                  patternArgs: ArgList, faultArgs: ArgList, protocol: Option<string>,
                                  dstPorts: Option<seq<string>>, srcPorts: Option<seq<string>>, enable: bool)
    requires NicsCommands(pid, device, faultType, pattern, patternArgs, faultArgs, protocol,
                          dstPorts, srcPorts, enable).Success?
    ensures protocol.Some?
    ensures var r := NicsCommands(pid, device, faultType, pattern, patternArgs, faultArgs, protocol,
                                  dstPorts, srcPorts, enable).value;
      && (forall c :: c in r ==> BaseCommand(pid) <= c)
      && (Contains(protocol.value, "any") ==> |r| == 1)
  {
    if !Contains(protocol.value, "any") {
      FilteredCommandsStartWithBase(pid, pattern, patternArgs, faultType, faultArgs, device, protocol.value,
                                    dstPorts, srcPorts, enable);
    }
  }

  /** A random delay lets `p` percent of the packets through in order and
      reorders the other `100 - p` percent, `p` being the first pattern argument. */
  lemma RandomDelayReorder(pid: Option<nat>, device: string, faultType: string, p: int, rest: seq<string>,
                           latency: string, moreFaultArgs: seq<string>, tcCmd: string)
    requires Contains(faultType, "delay")
    ensures MakeNicsInjectionCommand(pid, device, faultType, "random", Some([IntToString(p)] + rest),
                                     Some([latency] + moreFaultArgs), tcCmd)
            == Success(Some(NetemRoot(BaseCommand(pid), tcCmd, device) + faultType + " " + latency
                            + " reorder " + IntToString(100 - p) + "%"))
  {
    var patternArgs := Some([IntToString(p)] + rest);
    var faultArgs := Some([latency] + moreFaultArgs);
    assert Contains("random", "random") by {
      assert StartsWith("random", "random");
    }
    assert ArgAt(patternArgs, 0, PatternArgs) == Success(IntToString(p));
    ToIntOfIntToString(p);
    assert ArgAt(faultArgs, 0, FaultArgs) == Success(latency);
  }
}
