/** MultiInjector.build_start_command: the command that loads a tcset
    configuration into the node, and the one that resets every interface the
    configuration names. The configuration is taken as already parsed: its
    text and its interface names, in the order the parsed object lists them. */
module MultiConfig {
  import opened Text

  /** The settings of one interface, direction by direction ("outgoing",
      "incoming"), each a map of tcset settings. */
  type InterfaceSettings = map<string, map<string, string>>

  /** What a reset puts on an interface: both directions, with no settings. */
  const ResetInterface: InterfaceSettings := map["outgoing" := map[], "incoming" := map[]]

  /** `echo '<text>' | tcset /dev/stdin --import-setting`: the settings are
      echoed into tcset, which reads them from its standard input. */
  function TcsetImport(settingsText: string): string {
    EchoSettings(settingsText) + "|" + TcsetStage
  }

  /** The reset configuration: every interface of the configuration, with
      both directions emptied, and nothing else. */
  function ResetConfig(interfaces: set<string>): (reset: map<string, InterfaceSettings>)
    ensures reset.Keys == interfaces
    ensures forall name :: name in reset ==> reset[name] == ResetInterface
  {
    map name | name in interfaces :: ResetInterface
  }

  /** The loop over the configuration's interface names. */
  method BuildResetConfig(names: seq<string>) returns (unset: map<string, InterfaceSettings>)
    ensures unset == ResetConfig(set name | name in names)
  {
    unset := map[];
    for i := 0 to |names|
      invariant forall name :: name in unset <==> name in names[..i]
      invariant forall name :: name in unset ==> unset[name] == ResetInterface
    {
      assert forall name :: name in names[..i + 1] <==> name in names[..i] || name == names[i] by {
        assert names[..i + 1] == names[..i] + [names[i]];
      }
      unset := unset[names[i] := ResetInterface];
    }
    assert names[..|names|] == names;
  }

  /** Resetting is idempotent: the reset of a reset configuration is itself. */
  lemma ResetIdempotent(interfaces: set<string>)
    ensures ResetConfig(ResetConfig(interfaces).Keys) == ResetConfig(interfaces)
  {
  }

  /** The reset names exactly the interfaces a configuration sets. */
  lemma ResetCoversConfig(config: map<string, InterfaceSettings>)
    ensures ResetConfig(config.Keys).Keys == config.Keys
    ensures forall name :: name in config ==> ResetConfig(config.Keys)[name] == ResetInterface
  {
  }

  /** `json.dumps` of one reset entry. */
  function ResetEntryJson(name: string): string {
    "\"" + name + "\": {\"outgoing\": {}, \"incoming\": {}}"
  }

  /** `json.dumps` of the reset configuration, the entries in the order of `names`. */
  function ResetJson(names: seq<string>): string {
    "{" + ResetEntriesJson(names) + "}"
  }

  function ResetEntriesJson(names: seq<string>): string
    decreases |names|
  {
    if names == [] then ""
    else if |names| == 1 then ResetEntryJson(names[0])
    else ResetEntryJson(names[0]) + ", " + ResetEntriesJson(names[1..])
  }

  /** Every interface appears in the reset text, with both directions emptied. */
  lemma {:induction false} ResetJsonNamesEveryInterface(names: seq<string>, i: nat)
    requires i < |names|
    ensures Contains(ResetEntriesJson(names), ResetEntryJson(names[i]))
    decreases |names|
  {
    if i == 0 {
      FirstEntryContained(names);
    } else {
      ResetJsonNamesEveryInterface(names[1..], i - 1);
      LaterEntriesContained(names, ResetEntryJson(names[i]));
    }
  }

  lemma FirstEntryContained(names: seq<string>)
    requires |names| > 0
    ensures Contains(ResetEntriesJson(names), ResetEntryJson(names[0]))
  {
    var first := ResetEntryJson(names[0]);
    if |names| == 1 {
      ContainsPiece("", first, "");
      assert "" + first + "" == first;
    } else {
      var rest := ", " + ResetEntriesJson(names[1..]);
      ContainsPiece("", first, rest);
      assert "" + first + rest == ResetEntriesJson(names);
    }
  }

  lemma LaterEntriesContained(names: seq<string>, entry: string)
    requires |names| > 1
    requires Contains(ResetEntriesJson(names[1..]), entry)
    ensures Contains(ResetEntriesJson(names), entry)
  {
    ContainsInAppend(ResetEntryJson(names[0]) + ", ", ResetEntriesJson(names[1..]), entry);
  }

  /** The reset text has a `|` only where an interface name has one. */
  lemma {:induction false} ResetJsonHasNoPipe(names: seq<string>)
    requires forall i :: 0 <= i < |names| ==> '|' !in names[i]
    ensures '|' !in ResetJson(names)
    decreases |names|
  {
    assert '|' !in ResetEntriesJson(names) by {
      if |names| == 1 {
        assert '|' !in ResetEntryJson(names[0]);
      } else if |names| > 1 {
        ResetJsonHasNoPipe(names[1..]);
        assert '|' !in ResetEntryJson(names[0]);
        assert ResetJson(names[1..]) == "{" + ResetEntriesJson(names[1..]) + "}";
        assert forall c :: c in ResetEntriesJson(names[1..]) ==> c in ResetJson(names[1..]);
      }
    }
  }

  /** build_start_command: the command that loads the configuration and the
      one that loads its reset. The names are the keys of the parsed
      configuration, so no name occurs twice. */
  method BuildStartCommand(configText: string, names: seq<string>)
    returns (startCommand: string, endCommand: string, unset: map<string, InterfaceSettings>)
    requires forall i, j :: 0 <= i < j < |names| ==> names[i] != names[j]
    ensures startCommand == TcsetImport(configText)
    ensures endCommand == TcsetImport(ResetJson(names))
    ensures unset.Keys == set name | name in names
    ensures forall name :: name in unset ==> unset[name] == ResetInterface
  {
    startCommand := TcsetImport(configText);
    unset := BuildResetConfig(names);
    endCommand := TcsetImport(ResetJson(names));
  }

  /** Both commands are pipelines that feed tcset: the only `|` stands
      between the echo of the settings and tcset. */
  lemma TcsetImportIsPipeline(settingsText: string)
    requires '|' !in settingsText
    ensures CharCount(TcsetImport(settingsText), '|') == 1
    ensures '|' !in EchoSettings(settingsText) && '|' !in TcsetStage
  {
    var echo := EchoSettings(settingsText);
    assert '|' !in "echo '" && '|' !in "' ";
    assert '|' !in echo;
    assert '|' !in TcsetStage;
    CharCountZero(echo, '|');
    CharCountZero(TcsetStage, '|');
    CharCountAppend(echo, "|", '|');
    CharCountAppend(echo + "|", TcsetStage, '|');
  }

  /** The stage before the pipe. */
  function EchoSettings(settingsText: string): string {
    "echo '" + settingsText + "' "
  }

  /** The stage after the pipe. */
  const TcsetStage := " tcset /dev/stdin --import-setting"
}
