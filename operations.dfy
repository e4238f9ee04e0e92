/**
 * The two operations the operator starts from the window: resetting a board
 * group (`perform_reset`) and loading an artifact (`perform_load`). Each reads
 * its settings from the configuration, checks them, and hands the command
 * lines to the shared loop of the sequencer. The controller object holds
 * the configuration, the artifact path shown in the window, and the trace of
 * everything the operations did.
 */
module Operations {
  import opened Wrappers
  import opened Text
  import opened Numbers
  import opened Config
  import opened Remote
  import opened Sequencer

  /** What the surroundings of one operation answer. */
  datatype World = World(
    sessions: nat -> Session,  // what the SSH layer reports for the n-th command line sent (from 0)
    proceed: nat -> bool,      // the operator's answer after the n-th command failed
    onDisk: string -> bool,    // `os.path.exists`
    canWrite: string -> bool)  // whether the info file's directory can be created and the file written

  /** A world whose file system behaves as a real one does: `os.path.exists('')` is false. */
  predicate ValidWorld(w: World) {
    !w.onDisk("")
  }

  /** How an operation ended. */
  datatype Result =
    | NotConfigured             // the command option is missing or empty
    | NoValidCommands           // the command option names no command
    | ArtifactMissing           // neither the chosen artifact nor the fallback exists
    | Finished(allSuccess: bool) // the commands ran; whether every one that ran succeeded

  /** An operation's result and the events it caused, in order. */
  datatype Report = Report(result: Result, events: seq<Event>)

  const Connection := "Connection"
  const BitFilePaths := "BitFilePaths"

  /** The tool every command line starts with; a missing option stays `None`. */
  function ConfproPath(c: Config): Option<string> {
    GetConfigValue(c, Connection, "confpro_path", None)
  }

  /** Where the load operation records the artifact it loads; a missing option stays `None`. */
  function InfoPath(c: Config): Option<string> {
    GetConfigValue(c, Connection, "bitfile_info_path", None)
  }

  function CommandDelay(c: Config): int {
    GetIntConfigValue(c, Timing, "command_delay", 2)
  }

  function ResetText(c: Config, resetType: string): string {
    GetConfigValue(c, ResetCommands, resetType, Some("")).value
  }

  function LoadText(c: Config): string {
    GetConfigValue(c, LoadCommands, "default", Some("")).value
  }

  function DefaultIndex(c: Config): int {
    GetIntConfigValue(c, BitFilePaths, "default_index", 3)
  }

  /** The preset path named by `default_index`, or the empty path when that preset is missing. */
  function FallbackPath(c: Config): string {
    GetConfigValue(c, BitFilePaths, "path" + IntToString(DefaultIndex(c)), Some("")).value
  }

  /** How a configured command becomes the command that is sent. */
  datatype Template =
    | Plain                       // reset commands are sent as they are
    | WithArtifact(path: string)  // load commands get the artifact path in place of `{bitfile_path}`

  /** The command line for `cmd`: the command, filled in if need be, after the quoted tool path. */
  function CommandLine(confpro: Option<string>, t: Template, cmd: string): string {
    match t
    case Plain => FullCommand(confpro, cmd)
    case WithArtifact(path) => FullCommand(confpro, Render(cmd, path))
  }

  function CommandLines(confpro: Option<string>, t: Template, cmds: seq<string>): seq<string> {
    seq(|cmds|, k requires 0 <= k < |cmds| => CommandLine(confpro, t, cmds[k]))
  }

  /**
   * The part both operations share: a missing or empty command option and
   * an option naming no command end the operation before anything is sent;
   * otherwise the command lines run through the shared loop.
   */
  function CommandsRun(c: Config, text: string, t: Template, w: World): Report {
    if text == "" then Report(NotConfigured, [])
    else
      var cmds := SplitCommands(text);
      if cmds == [] then Report(NoValidCommands, [])
      else
        var o := Steps(CommandLines(ConfproPath(c), t, cmds), CommandDelay(c), w.sessions, w.proceed, 0);
        Report(Finished(o.allSuccess), o.events)
  }

  /** `perform_reset(reset_type)`: the commands configured for the board group, sent as they are. */
  function ResetRun(c: Config, resetType: string, w: World): Report {
    CommandsRun(c, ResetText(c, resetType), Plain, w)
  }

  /** The artifact a load uses: the chosen one when it exists, the configured fallback otherwise. */
  function LoadPath(c: Config, chosen: string, w: World): string {
    if w.onDisk(chosen) then chosen else FallbackPath(c)
  }

  /** Recording the artifact path, which fails when no info file is configured or it cannot be written. */
  function SaveEvent(c: Config, path: string, w: World): Event {
    var info := InfoPath(c);
    SaveInfo(info, path, info.Some? && w.canWrite(info.value))
  }

  /**
   * `perform_load()`: the artifact must exist, or else the fallback; its path
   * is recorded before the command option is even looked at, and a failed
   * recording does not stop the load.
   */
  function LoadRun(c: Config, chosen: string, w: World): Report {
    var path := LoadPath(c, chosen, w);
    if !w.onDisk(path) then Report(ArtifactMissing, [])
    else
      var run := CommandsRun(c, LoadText(c), WithArtifact(path), w);
      Report(run.result, [SaveEvent(c, path, w)] + run.events)
  }

  /** The shared part as both operations run it. */
  method RunCommandText(c: Config, text: string, t: Template, w: World) returns (result: Result, events: seq<Event>)
    ensures Report(result, events) == CommandsRun(c, text, t, w)
  {
    var confpro := ConfproPath(c);
    var delay := CommandDelay(c);
    events := [];
    if text == "" {
      result := NotConfigured;
    } else {
      var cmds := SplitCommands(text);
      if cmds == [] {
        result := NoValidCommands;
      } else {
        var allSuccess;
        allSuccess, events := RunSequence(CommandLines(confpro, t, cmds), delay, w.sessions, w.proceed);
        result := Finished(allSuccess);
      }
    }
  }

  /**
   * `load_or_create_config`: a configuration file that exists is read and
   * repaired, a missing one is replaced by the defaults of the revision.
   */
  method LoadOrCreateConfig(rev: Revision, file: Option<Config>) returns (store: ConfigStore)
    ensures fresh(store)
    ensures store.sections == if file.Some? then Repaired(file.value) else DefaultConfig(rev)
  {
    if file.Some? {
      store := new ConfigStore(file.value);
      var _, _ := FixConfig(store);
    } else {
      store := new ConfigStore(DefaultConfig(rev));
    }
  }

  /**
   * The shared part stops before sending anything exactly when the option is
   * empty (not configured) or holds only separators and whitespace (no valid
   * command); otherwise it runs the commands.
   */
  lemma CommandsRunRejects(c: Config, text: string, t: Template, w: World)
    ensures var r := CommandsRun(c, text, t, w);
      (r.result == NotConfigured <==> text == "") &&
      (r.result == NoValidCommands <==> text != "" && AllBlank(text)) &&
      (r.result.Finished? <==> !AllBlank(text)) &&
      (!r.result.Finished? ==> r.events == [])
  {
    SplitCommandsEmptyIff(text);
  }

  /** An option naming at least one command runs its command lines through the shared loop. */
  lemma CommandsRunFinished(c: Config, text: string, t: Template, w: World)
    requires !AllBlank(text)
    ensures var o := Steps(CommandLines(ConfproPath(c), t, SplitCommands(text)), CommandDelay(c), w.sessions, w.proceed, 0);
      CommandsRun(c, text, t, w) == Report(Finished(o.allSuccess), o.events)
  {
    SplitCommandsEmptyIff(text);
  }

  /**
   * When the commands run, the lines sent are the first `k` command lines in
   * order, where `k` ends the run at the first failure the operator did not
   * want to continue past.
   */
  lemma CommandsRunSends(c: Config, text: string, t: Template, w: World)
    requires !AllBlank(text)
    ensures var lines := CommandLines(ConfproPath(c), t, SplitCommands(text));
      Runs(CommandsRun(c, text, t, w).events) == Executed(lines, 0, Stop(|lines|, w.sessions, w.proceed, 0))
  {
    CommandsRunFinished(c, text, t, w);
    var lines := CommandLines(ConfproPath(c), t, SplitCommands(text));
    StepsRunPrefix(lines, CommandDelay(c), w.sessions, w.proceed, 0);
  }

  /** The commands succeed exactly when every line sent succeeded. */
  lemma CommandsRunSucceeds(c: Config, text: string, t: Template, w: World)
    requires !AllBlank(text)
    ensures var lines := CommandLines(ConfproPath(c), t, SplitCommands(text));
      CommandsRun(c, text, t, w).result ==
        Finished(forall j :: 0 <= j < Stop(|lines|, w.sessions, w.proceed, 0) ==> Succeeds(w.sessions(j)))
  {
    CommandsRunFinished(c, text, t, w);
    var lines := CommandLines(ConfproPath(c), t, SplitCommands(text));
    StepsSucceedIff(lines, CommandDelay(c), w.sessions, w.proceed, 0);
  }

  /** Commands that succeed were all sent. */
  lemma CommandsRunSucceedsAll(c: Config, text: string, t: Template, w: World)
    requires !AllBlank(text) && CommandsRun(c, text, t, w).result == Finished(true)
    ensures var lines := CommandLines(ConfproPath(c), t, SplitCommands(text));
      Stop(|lines|, w.sessions, w.proceed, 0) == |lines|
  {
    CommandsRunFinished(c, text, t, w);
    var lines := CommandLines(ConfproPath(c), t, SplitCommands(text));
    StepsSucceedIff(lines, CommandDelay(c), w.sessions, w.proceed, 0);
  }

  /**
   * When the commands run, the operator is asked once after each failed
   * line that was sent, and a delay round separates each two lines sent.
   */
  lemma CommandsRunPaces(c: Config, text: string, t: Template, w: World, j: nat)
    requires !AllBlank(text)
    ensures var r := CommandsRun(c, text, t, w);
      var lines := CommandLines(ConfproPath(c), t, SplitCommands(text));
      var k := Stop(|lines|, w.sessions, w.proceed, 0);
      var delay := CommandDelay(c);
      multiset(r.events)[Ask(j)] == (if j < k && !Succeeds(w.sessions(j)) then 1 else 0) &&
      multiset(r.events)[Tick] == (if delay > 0 && k > 0 then (k - 1) * delay else 0)
  {
    SplitCommandsEmptyIff(text);
    var lines := CommandLines(ConfproPath(c), t, SplitCommands(text));
    StepsAskOnFailure(lines, CommandDelay(c), w.sessions, w.proceed, 0, j);
    StepsTickCount(lines, CommandDelay(c), w.sessions, w.proceed);
  }

  /**
   * A reset line is the quoted tool path followed by the configured command
   * unchanged; a load line holds the artifact path wherever the command
   * names the placeholder, and is the plain line when it names none.
   */
  lemma CommandLineContents(confpro: Option<string>, cmd: string, path: string)
    ensures var tool := confpro.GetOr("None");
      CommandLine(confpro, Plain, cmd)[|tool| + 3..] == cmd
    ensures Contains(cmd, Placeholder) ==> Contains(CommandLine(confpro, WithArtifact(path), cmd), path)
    ensures !Contains(cmd, Placeholder) ==> CommandLine(confpro, WithArtifact(path), cmd) == CommandLine(confpro, Plain, cmd)
  {
    if Contains(cmd, Placeholder) {
      RenderNamesPath(cmd, path);
      var line := CommandLine(confpro, WithArtifact(path), cmd);
      var offset := |confpro.GetOr("None")| + 3;
      ContainsInSuffix(line, offset, path);
    } else {
      RenderWithoutPlaceholder(cmd, path);
    }
  }

  /** Before anything is sent, the load records its artifact, and only a missing artifact stops it earlier. */
  lemma LoadRunOrder(c: Config, chosen: string, w: World)
    ensures var r := LoadRun(c, chosen, w);
      var path := LoadPath(c, chosen, w);
      (r.result == ArtifactMissing <==> !w.onDisk(chosen) && !w.onDisk(FallbackPath(c))) &&
      (r.result == ArtifactMissing ==> r.events == []) &&
      (r.result != ArtifactMissing ==>
        r.events != [] && r.events[0] == SaveInfo(InfoPath(c), path, InfoPath(c).Some? && w.canWrite(InfoPath(c).value)) &&
        Runs(r.events) == Runs(r.events[1..]) &&
        r.events[1..] == CommandsRun(c, LoadText(c), WithArtifact(path), w).events)
  {
    var r := LoadRun(c, chosen, w);
    if r.result != ArtifactMissing {
      assert r.events == [r.events[0]] + r.events[1..];
      RunsConcat([r.events[0]], r.events[1..]);
    }
  }

  /** Whether the info file could be written changes neither the result nor what is sent. */
  lemma LoadSaveFailureHarmless(c: Config, chosen: string, w: World, canWrite: string -> bool)
    ensures var r := LoadRun(c, chosen, w);
      var r' := LoadRun(c, chosen, w.(canWrite := canWrite));
      r'.result == r.result && |r'.events| == |r.events| &&
      (r.events != [] ==> r'.events[1..] == r.events[1..])
  {
  }

  /** A value that `str(n)` wrote reads back as `n`, whatever the default. */
  lemma GetIntReadsPrinted(c: Config, section: string, key: string, n: int, default: int)
    requires Lookup(c, section, key) == Some(IntToString(n))
    ensures GetIntConfigValue(c, section, key, default) == n
  {
    var s := IntToString(n);
    StripUnchanged(s);
    IntToStringRoundTrip(n);
  }

  /** Without a usable `default_index` the fallback is the third preset. */
  lemma FallbackWithoutIndex(c: Config)
    requires Lookup(c, BitFilePaths, "default_index").None? ||
      ParseInt(Strip(c[BitFilePaths]["default_index"])).None?
    ensures FallbackPath(c) == GetConfigValue(c, BitFilePaths, "path3", Some("")).value
  {
    assert DefaultIndex(c) == 3;
    SmallNumerals();
    assert "path" + IntToString(3) == "path3";
  }

  /** The fallback follows `default_index` whenever that option holds a number as `str` prints it. */
  lemma FallbackFollowsIndex(c: Config, n: int)
    requires Lookup(c, BitFilePaths, "default_index") == Some(IntToString(n))
    ensures FallbackPath(c) == GetConfigValue(c, BitFilePaths, "path" + IntToString(n), Some("")).value
  {
    GetIntReadsPrinted(c, BitFilePaths, "default_index", n, 3);
  }

  /**
   * A `default_index` naming a preset that is not configured gives the empty
   * path, which does not exist: a load whose chosen artifact is missing then
   * stops before recording anything or sending anything.
   */
  lemma LoadMissingPresetFails(c: Config, chosen: string, w: World)
    requires ValidWorld(w) && !w.onDisk(chosen)
    requires Lookup(c, BitFilePaths, "path" + IntToString(DefaultIndex(c))).None?
    ensures LoadRun(c, chosen, w) == Report(ArtifactMissing, [])
  {
  }

  /** In a real file system a load that goes ahead never uses the empty path, whatever the path field held. */
  lemma LoadNeverUsesEmptyPath(c: Config, chosen: string, w: World)
    requires ValidWorld(w)
    ensures LoadRun(c, chosen, w).result != ArtifactMissing ==> LoadPath(c, chosen, w) != ""
  {
  }

  /** `default_index` is present but holds no integer, a value the repair leaves alone. */
  predicate IndexUnreadable(c: Config) {
    Lookup(c, BitFilePaths, "default_index").Some? &&
    ParseInt(Strip(c[BitFilePaths]["default_index"])).None?
  }

  /**
   * The path field the window starts with, as start-up is written: reading an
   * unreadable `default_index` logs a warning before the log pane exists,
   * which raises and ends start-up with no window (`None`).
   */
  function InitialPathAsWritten(c: Config): Option<string> {
    if IndexUnreadable(c) then None else Some(FallbackPath(c))
  }

  /**
   * As written, an unreadable `default_index` ends start-up with no window,
   * although the value read is meant to fall back to 3, naming `path3`.
   */
  lemma UnreadableIndexCrashesStartup(c: Config)
    requires IndexUnreadable(c)
    ensures InitialPathAsWritten(c) == None
    ensures FallbackPath(c) == GetConfigValue(c, BitFilePaths, "path3", Some("")).value
  {
    FallbackWithoutIndex(c);
  }

  /** `default_index = abc` is such an input: as written no window, as meant the third preset. */
  lemma StartupCrashExample()
    ensures var c := map[BitFilePaths := map["default_index" := "abc", "path3" := Preset3]];
      IndexUnreadable(c) && InitialPathAsWritten(c) == None && FallbackPath(c) == Preset3
  {
    var c := map[BitFilePaths := map["default_index" := "abc", "path3" := Preset3]];
    StripUnchanged("abc");
    assert !IsDigit("abc"[0]);
    UnreadableIndexCrashesStartup(c);
  }

  /** The fallback of a fresh default configuration: the third preset in revision 6, the first in revision 7. */
  lemma DefaultFallback(rev: Revision)
    ensures FallbackPath(DefaultConfig(rev)) == if rev == V6 then Preset3 else Preset1
  {
    var c := DefaultConfig(rev);
    var n := if rev == V6 then 3 else 1;
    DefaultPresetsStored(rev);
    SmallNumerals();
    FallbackFollowsIndex(c, n);
  }

  lemma DefaultPresetsStored(rev: Revision)
    ensures var p := DefaultPresets(rev);
      Lookup(DefaultConfig(rev), BitFilePaths, "default_index") == Some(if rev == V6 then "3" else "1") &&
      Lookup(DefaultConfig(rev), BitFilePaths, "path1") == Some(Preset1) &&
      Lookup(DefaultConfig(rev), BitFilePaths, "path3") == Some(Preset3)
  {
    assert DefaultConfig(rev)[BitFilePaths] == DefaultPresets(rev);
  }

  lemma SmallNumerals()
    ensures IntToString(1) == "1" && IntToString(3) == "3"
    ensures "path" + IntToString(1) == "path1" && "path" + IntToString(3) == "path3"
  {
    assert IntToString(1) == "1" && IntToString(3) == "3";
  }

  /** The default reset options name their pulses in order: four for `haps`, two each for the others. */
  lemma DefaultResetLists()
    ensures SplitCommands(DefaultHaps) == [PulseFB1A, PulseFB1D, PulseFB1B, PulseFB1C]
    ensures SplitCommands(DefaultHapsMaster) == [PulseFB1A, PulseFB1D]
    ensures SplitCommands(DefaultHapsSlave) == [PulseFB1B, PulseFB1C]
  {
    PulsesClean();
    SplitCommandsRoundTrip([PulseFB1A, PulseFB1D, PulseFB1B, PulseFB1C]);
    SplitCommandsRoundTrip([PulseFB1A, PulseFB1D]);
    SplitCommandsRoundTrip([PulseFB1B, PulseFB1C]);
  }

  /** The default load option is one command. */
  lemma DefaultLoadCommands()
    ensures SplitCommands(DefaultLoad) == [DefaultLoad]
  {
    LoadClean();
    SplitCommandsRoundTrip([DefaultLoad]);
  }

  lemma LoadClean()
    ensures Clean(DefaultLoad)
  {
  }

  lemma PulsesClean()
    ensures Clean(PulseFB1A) && Clean(PulseFB1B) && Clean(PulseFB1C) && Clean(PulseFB1D)
  {
  }

  /** The application object: its configuration, the artifact path in the window, and what it did. */
  class Controller {
    const config: ConfigStore
    var bitfilePath: string
    var buttonsEnabled: bool
    var trace: seq<Event>

    /** The window over a loaded configuration: the path field starts at the preset `default_index` names. */
    constructor (store: ConfigStore)
      ensures config == store
      ensures bitfilePath == FallbackPath(store.sections)
      ensures buttonsEnabled && trace == []
    {
      config := store;
      bitfilePath := FallbackPath(store.sections);
      buttonsEnabled := true;
      trace := [];
    }

    /** `perform_reset(reset_type)`, with the buttons disabled while it runs. */
    method PerformReset(resetType: string, w: World) returns (result: Result)
      modifies this
      ensures var r := ResetRun(config.sections, resetType, w);
        result == r.result && trace == old(trace) + r.events
      ensures bitfilePath == old(bitfilePath) && buttonsEnabled
    {
      buttonsEnabled := false;
      var c := config.sections;
      var events;
      result, events := RunCommandText(c, ResetText(c, resetType), Plain, w);
      trace := trace + events;
      buttonsEnabled := true;
    }

    /**
     * `perform_load()`, with the buttons disabled while it runs; the path
     * field shows the fallback once the chosen artifact was missing.
     */
    method PerformLoad(w: World) returns (result: Result)
      modifies this
      ensures var r := LoadRun(config.sections, old(bitfilePath), w);
        result == r.result && trace == old(trace) + r.events
      ensures bitfilePath == LoadPath(config.sections, old(bitfilePath), w) && buttonsEnabled
    {
      buttonsEnabled := false;
      var c := config.sections;
      var path := bitfilePath;
      var info := InfoPath(c);
      if !w.onDisk(path) {
        path := FallbackPath(c);
        bitfilePath := path;
        if !w.onDisk(path) {
          result := ArtifactMissing;
          buttonsEnabled := true;
          return;
        }
      }
      var save := SaveInfo(info, path, info.Some? && w.canWrite(info.value));
      ghost var before := trace;
      trace := trace + [save];
      var events;
      result, events := RunCommandText(c, LoadText(c), WithArtifact(path), w);
      trace := trace + events;
      assert trace == before + ([save] + events) by {
        AppendAssociative(before, [save], events);
      }
      buttonsEnabled := true;
    }
  }

  /** Start-up (`__init__`): the configuration is loaded or created, then the window is built over it. */
  method Start(rev: Revision, file: Option<Config>) returns (app: Controller)
    ensures fresh(app) && fresh(app.config)
    ensures app.config.sections == if file.Some? then Repaired(file.value) else DefaultConfig(rev)
    ensures app.bitfilePath == FallbackPath(app.config.sections)
    ensures app.buttonsEnabled && app.trace == []
  {
    var store := LoadOrCreateConfig(rev, file);
    app := new Controller(store);
  }
}
